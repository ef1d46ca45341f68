/** The bytes themselves: what a variable-length integer is worth, and every byte of a built module that its
    mod does not choose. */
module WasmLaws {
  import opened Bytes
  import opened Leb128
  import opened WasmModules

  // ---------------------------------------------------------------- integers

  /** Seven bits a byte, the lowest first. */
  function Worth(b: seq<Byte>): nat {
    if b == [] then 0
    else
      var n: nat := b[0];
      n % 128 + 128 * Worth(b[1..])
  }

  /** What one byte more at the end would be worth. */
  function Beyond(b: seq<Byte>): nat {
    if b == [] then 1 else 128 * Beyond(b[1..])
  }

  /** The high bit says that there is more. */
  predicate Marked(b: seq<Byte>) {
    b != [] && forall k :: 0 <= k < |b| ==> (b[k] >= 128 <==> k < |b| - 1)
  }

  lemma MarkedMore(n: Byte, b: seq<Byte>)
    requires n >= 128 && Marked(b)
    ensures Marked([n] + b) && ([n] + b)[1..] == b && ([n] + b)[|b|] == b[|b| - 1]
  {
  }

  lemma {:induction false} UlebDoes(value: nat)
    ensures Marked(Uleb(value)) && Worth(Uleb(value)) == value
  {
    if value >= 128 {
      UlebDoes(value / 128);
      MarkedMore(value % 128 + 128, Uleb(value / 128));
    }
  }

  /** In two's complement of as many bits as there are. */
  function SignedWorth(b: seq<Byte>): int
    requires b != []
  {
    Worth(b) - (if b[|b| - 1] % 128 >= 64 then Beyond(b) else 0)
  }

  lemma {:induction false} SlebDoes(value: int)
    ensures Marked(Sleb(value)) && SignedWorth(Sleb(value)) == value
    decreases if value < 0 then -value else value
  {
    if SlebEnds(value) {
      SlebLast(value);
    } else {
      SlebDoes(value / 128);
      SlebMore(value);
      hide Sleb, SignedWorth, SlebEnds, Marked;
      MarkedMore(value % 128 + 128, Sleb(value / 128));
      SignedMore(value % 128 + 128, Sleb(value / 128));
    }
  }

  lemma SlebLast(value: int)
    requires SlebEnds(value)
    ensures Marked(Sleb(value)) && SignedWorth(Sleb(value)) == value
  {
    var b := Sleb(value);
    assert b == [value % 128];
    OneByte(b);
  }

  lemma OneByte(b: seq<Byte>)
    requires |b| == 1
    ensures Worth(b) == b[0] as int % 128 && Beyond(b) == 128
  {
    assert b[1..] == [];
    assert Worth(b[1..]) == 0 && Beyond(b[1..]) == 1;
  }

  lemma SignedMore(n: Byte, b: seq<Byte>)
    requires n >= 128 && b != []
    ensures SignedWorth([n] + b) == n as int - 128 + 128 * SignedWorth(b)
  {
    WorthMore(n, b);
    hide Worth, Beyond;
  }

  lemma SlebMore(value: int)
    requires !SlebEnds(value)
    ensures Sleb(value) == [value % 128 + 128] + Sleb(value / 128)
  {
  }

  lemma WorthMore(n: Byte, b: seq<Byte>)
    ensures Worth([n] + b) == n as int % 128 + 128 * Worth(b) && Beyond([n] + b) == 128 * Beyond(b)
  {
    assert ([n] + b)[1..] == b;
  }

  /** Where a byte more is needed. */
  lemma Turns()
    ensures Uleb(0) == [0] && Uleb(127) == [0x7F] && Uleb(128) == [0x80, 1] && Uleb(624_485) == [0xE5, 0x8E, 0x26]
    ensures Sleb(0) == [0] && Sleb(63) == [0x3F] && Sleb(64) == [0xC0, 0] && Sleb(-1) == [0x7F]
    ensures Sleb(-64) == [0x40] && Sleb(-65) == [0xBF, 0x7F] && Sleb(-123_456) == [0xC0, 0xBB, 0x78]
  {
  }

  // ---------------------------------------------------------------- each construct

  lemma FuncTypeIs(t: FuncType)
    ensures WriteFuncType(t) == [0x60] + (Uleb(|t.params|) + t.params) + (Uleb(|t.results|) + t.results)
  {
    hide Uleb;
  }

  lemma ImportFields(i: Import)
    ensures WriteImport(i) == (Uleb(|i.host|) + i.host) + (Uleb(|i.field|) + i.field) + [0] + Uleb(i.typeIndex)
  {
    hide Uleb;
  }

  lemma ExportFields(e: Export)
    ensures WriteExport(e) == (Uleb(|e.name|) + e.name) + [e.kind] + Uleb(e.index)
  {
    hide Uleb;
  }

  /** No local declarations before the instructions, and the end after them. */
  lemma BodyIs(code: seq<Byte>)
    ensures WriteBody(code) == Uleb(|code| + 2) + ([0] + code + [0x0B])
  {
    assert Uleb(0) == [0];
    hide Uleb;
    assert |[0] + code + [0x0B]| == |code| + 2;
  }

  /** In memory nought, at an address that is a constant. */
  lemma SegmentIs(s: Segment)
    ensures WriteSegment(s) == [0, 0x41] + Sleb(s.address) + [0x0B] + (Uleb(|s.payload|) + s.payload)
  {
    assert Uleb(0) == [0];
    hide Uleb, Sleb;
  }

  // ---------------------------------------------------------------- the payloads

  lemma Texts()
    ensures Ascii("atlas") == [0x61, 0x74, 0x6C, 0x61, 0x73] && Ascii("memory") == [0x6D, 0x65, 0x6D, 0x6F, 0x72, 0x79]
    ensures Ascii("mod_init") == [0x6D, 0x6F, 0x64, 0x5F, 0x69, 0x6E, 0x69, 0x74]
    ensures Ascii("mod_tick") == [0x6D, 0x6F, 0x64, 0x5F, 0x74, 0x69, 0x63, 0x6B]
    ensures Ascii("mod_shutdown") == [0x6D, 0x6F, 0x64, 0x5F, 0x73, 0x68, 0x75, 0x74, 0x64, 0x6F, 0x77, 0x6E]
    ensures Ascii("set_color_index")
         == [0x73, 0x65, 0x74, 0x5F, 0x63, 0x6F, 0x6C, 0x6F, 0x72, 0x5F, 0x69, 0x6E, 0x64, 0x65, 0x78]
  {
  }

  /** The three functions' types, and then each import's. */
  function TypeBytes(imports: seq<HostFunction>): seq<Byte> {
    Uleb(3 + |imports|) + [0x60, 0, 1, 0x7F] + [0x60, 1, 0x7E, 0] + [0x60, 0, 0]
    + WriteAll(WriteFuncType, TypesOf(imports)[3..])
  }

  lemma TypesAre(imports: seq<HostFunction>)
    ensures WriteVec(WriteFuncType, TypesOf(imports)) == TypeBytes(imports)
    ensures forall k :: 0 <= k < |imports| ==> TypesOf(imports)[3 + k] == FuncType(imports[k].params, imports[k].results)
  {
    var t := TypesOf(imports);
    OwnTypes();
    FirstThree(WriteFuncType, t);
    hide Uleb, WriteFuncType, WriteAll;
    Behind(Uleb(3 + |imports|), [0x60, 0, 1, 0x7F], [0x60, 1, 0x7E, 0], [0x60, 0, 0], WriteAll(WriteFuncType, t[3..]));
  }

  lemma OwnTypes()
    ensures WriteFuncType(FuncType([], [0x7F])) == [0x60, 0, 1, 0x7F]
    ensures WriteFuncType(FuncType([0x7E], [])) == [0x60, 1, 0x7E, 0] && WriteFuncType(FuncType([], [])) == [0x60, 0, 0]
  {
    ShortName([]);
    ShortName([0x7F]);
    ShortName([0x7E]);
    hide Name;
  }

  lemma Behind(n: seq<Byte>, a: seq<Byte>, b: seq<Byte>, c: seq<Byte>, d: seq<Byte>)
    ensures n + (a + b + c + d) == n + a + b + c + d
  {
  }

  lemma FirstThree<T>(write: T -> seq<Byte>, t: seq<T>)
    requires |t| >= 3
    ensures WriteAll(write, t) == write(t[0]) + write(t[1]) + write(t[2]) + WriteAll(write, t[3..])
  {
    First(write, t);
    First(write, t[1..]);
    First(write, t[2..]);
    assert t[1..][1..] == t[2..] && t[2..][1..] == t[3..];
    hide WriteAll;
    Regrouped(write(t[0]), write(t[1]), write(t[2]), WriteAll(write, t[3..]));
  }

  lemma First<T>(write: T -> seq<Byte>, t: seq<T>)
    requires t != []
    ensures WriteAll(write, t) == write(t[0]) + WriteAll(write, t[1..])
  {
  }

  lemma Regrouped(a: seq<Byte>, b: seq<Byte>, c: seq<Byte>, d: seq<Byte>)
    ensures a + (b + (c + d)) == a + b + c + d
  {
  }

  lemma ShortName(text: seq<Byte>)
    requires |text| < 128
    ensures Name(text) == [|text|] + text
  {
  }

  /** Every import is of the host's, a function of the type that is its own. */
  lemma ImportIs(imports: seq<HostFunction>, k: nat)
    requires k < |imports|
    ensures var field := imports[k].field;
      WriteImport(ImportsOf(imports)[k])
      == ([5] + Ascii("atlas")) + (Uleb(|field|) + field) + [0] + Uleb(3 + k)
  {
    ImportFields(ImportsOf(imports)[k]);
    assert Uleb(5) == [5];
    hide Uleb, Ascii, WriteImport;
  }

  /** Functions of the three types in turn; one page of memory and never more. */
  lemma FixedPayloads()
    ensures WriteVec(Uleb, [0, 1, 2]) == [3, 0, 1, 2] && WriteVec(WriteLimits, [Limits(1, 1)]) == [1, 1, 1, 1]
  {
    assert Uleb(0) == [0] && Uleb(1) == [1] && Uleb(2) == [2] && Uleb(3) == [3];
    hide Uleb;
    FirstThree(Uleb, [0, 1, 2]);
    assert WriteAll(WriteLimits, [Limits(1, 1)]) == WriteLimits(Limits(1, 1)) + WriteAll(WriteLimits, []);
  }

  /** The memory, and the three functions the host calls, which come after the imports. */
  function ExportBytes(count: nat): seq<Byte> {
    [4] + [6, 0x6D, 0x65, 0x6D, 0x6F, 0x72, 0x79, 2, 0]
    + ([8, 0x6D, 0x6F, 0x64, 0x5F, 0x69, 0x6E, 0x69, 0x74, 0] + Uleb(count))
    + ([8, 0x6D, 0x6F, 0x64, 0x5F, 0x74, 0x69, 0x63, 0x6B, 0] + Uleb(count + 1))
    + ([12, 0x6D, 0x6F, 0x64, 0x5F, 0x73, 0x68, 0x75, 0x74, 0x64, 0x6F, 0x77, 0x6E, 0] + Uleb(count + 2))
  }

  lemma ExportsAre(count: nat)
    ensures WriteVec(WriteExport, ExportsOf(count)) == ExportBytes(count)
  {
    var e := ExportsOf(count);
    MemoryExport();
    InitExport(count);
    TickExport(count + 1);
    ShutdownExport(count + 2);
    var last := [12, 0x6D, 0x6F, 0x64, 0x5F, 0x73, 0x68, 0x75, 0x74, 0x64, 0x6F, 0x77, 0x6E, 0] + Uleb(count + 2);
    assert Uleb(4) == [4];
    FirstThree(WriteExport, e);
    First(WriteExport, e[3..]);
    NoMore(WriteExport, e[3..][1..]);
    hide Uleb, Ascii, WriteExport, WriteAll;
    assert WriteAll(WriteExport, e[3..]) == last;
    Behind([4], WriteExport(e[0]), WriteExport(e[1]), WriteExport(e[2]), last);
  }

  lemma MemoryExport()
    ensures WriteExport(Export(Ascii("memory"), 2, 0)) == [6, 0x6D, 0x65, 0x6D, 0x6F, 0x72, 0x79, 2, 0]
  {
    Texts();
    ExportNamed(Export(Ascii("memory"), 2, 0));
    assert Uleb(0) == [0];
    hide Uleb, Ascii, WriteExport;
  }

  lemma InitExport(index: nat)
    ensures WriteExport(Export(Ascii("mod_init"), 0, index))
         == [8, 0x6D, 0x6F, 0x64, 0x5F, 0x69, 0x6E, 0x69, 0x74, 0] + Uleb(index)
  {
    Texts();
    ExportNamed(Export(Ascii("mod_init"), 0, index));
    hide Uleb, Ascii, WriteExport;
  }

  lemma TickExport(index: nat)
    ensures WriteExport(Export(Ascii("mod_tick"), 0, index))
         == [8, 0x6D, 0x6F, 0x64, 0x5F, 0x74, 0x69, 0x63, 0x6B, 0] + Uleb(index)
  {
    Texts();
    ExportNamed(Export(Ascii("mod_tick"), 0, index));
    hide Uleb, Ascii, WriteExport;
  }

  lemma ShutdownExport(index: nat)
    ensures WriteExport(Export(Ascii("mod_shutdown"), 0, index))
         == [12, 0x6D, 0x6F, 0x64, 0x5F, 0x73, 0x68, 0x75, 0x74, 0x64, 0x6F, 0x77, 0x6E, 0] + Uleb(index)
  {
    Texts();
    ExportNamed(Export(Ascii("mod_shutdown"), 0, index));
    hide Uleb, Ascii, WriteExport;
  }

  lemma ExportNamed(e: Export)
    requires |e.name| < 128
    ensures WriteExport(e) == [|e.name|] + e.name + [e.kind] + Uleb(e.index)
  {
    ShortName(e.name);
    hide Uleb;
  }

  lemma NoMore<T>(write: T -> seq<Byte>, t: seq<T>)
    requires t == []
    ensures WriteAll(write, t) == []
  {
  }

  /** The first function answers nought, the second is the tick, the third does nothing. */
  function BodyBytes(tick: seq<Byte>): seq<Byte> {
    [3] + [4, 0, 0x41, 0, 0x0B] + (Uleb(|tick| + 2) + ([0] + tick + [0x0B])) + [2, 0, 0x0B]
  }

  lemma BodiesAre(tick: seq<Byte>)
    ensures WriteVec(WriteBody, [[0x41] + Sleb(0), tick, []]) == BodyBytes(tick)
  {
    var b := [[0x41] + Sleb(0), tick, []];
    assert Uleb(3) == [3];
    FixedBodies();
    BodyIs(tick);
    FirstThree(WriteBody, b);
    NoMore(WriteBody, b[3..]);
    hide Uleb, Sleb, WriteBody, WriteAll;
    Behind([3], [4, 0, 0x41, 0, 0x0B], WriteBody(tick), [2, 0, 0x0B], []);
  }

  lemma FixedBodies()
    ensures WriteBody([0x41] + Sleb(0)) == [4, 0, 0x41, 0, 0x0B] && WriteBody([]) == [2, 0, 0x0B]
  {
    BodyIs([0x41] + Sleb(0));
    BodyIs([]);
    assert Uleb(2) == [2] && Uleb(4) == [4] && Sleb(0) == [0];
    hide Uleb, Sleb, WriteBody;
  }

  /** The command's name at its address, and then whatever else there is. */
  function DataBytes(address: Byte, name: seq<Byte>, extra: seq<Segment>): seq<Byte>
    requires |name| < 128
  {
    Uleb(1 + |extra|) + ([0, 0x41, address, 0x0B, |name|] + name) + WriteAll(WriteSegment, extra)
  }

  lemma DataIs(address: Byte, name: seq<Byte>, extra: seq<Segment>)
    requires address < 64 && |name| < 128
    ensures WriteVec(WriteSegment, [Segment(address, name)] + extra) == DataBytes(address, name, extra)
  {
    hide WriteVec, WriteSegment, WriteAll, Uleb;
    LowSegment(address, name);
    DataBegins(Segment(address, name), extra);
  }

  lemma DataBegins(first: Segment, extra: seq<Segment>)
    ensures WriteVec(WriteSegment, [first] + extra)
         == Uleb(1 + |extra|) + WriteSegment(first) + WriteAll(WriteSegment, extra)
  {
    var all := [first] + extra;
    assert all[0] == first && all[1..] == extra && |all| == 1 + |extra|;
    First(WriteSegment, all);
    hide Uleb, WriteSegment, WriteAll;
    Between(Uleb(|all|), WriteSegment(first), WriteAll(WriteSegment, extra));
  }

  lemma Between(a: seq<Byte>, b: seq<Byte>, c: seq<Byte>)
    ensures a + (b + c) == a + b + c
  {
  }

  lemma LowSegment(address: nat, text: seq<Byte>)
    requires address < 64 && |text| < 128
    ensures WriteSegment(Segment(address, text)) == [0, 0x41, address, 0x0B, |text|] + text
  {
    SegmentIs(Segment(address, text));
    assert Uleb(|text|) == [|text|] && Sleb(address) == [address];
    hide Uleb, Sleb, WriteSegment;
  }

  /** The preamble, and the seven sections under their numbers, each behind its length. */
  lemma ModuleIs(m: Module)
    ensures WriteModule(m)
         == [0x00, 0x61, 0x73, 0x6D, 0x01, 0x00, 0x00, 0x00]
            + (Numbered(1, WriteVec(WriteFuncType, m.types)) + (Numbered(2, WriteVec(WriteImport, m.imports))
            + (Numbered(3, WriteVec(Uleb, m.functions)) + (Numbered(5, WriteVec(WriteLimits, m.memories))
            + (Numbered(7, WriteVec(WriteExport, m.exports)) + (Numbered(10, WriteVec(WriteBody, m.bodies))
            + Numbered(11, WriteVec(WriteSegment, m.data))))))))
  {
    hide WriteVec, Uleb;
    SevenWritten(SectionsOf(m));
  }

  function Numbered(id: Byte, payload: seq<Byte>): seq<Byte> { [id] + (Uleb(|payload|) + payload) }

  /** Every byte of a built module: what is the same in all of them, and where the imports, the tick and the
      extra data go. */
  lemma BuiltIs(imports: seq<HostFunction>, tick: seq<Byte>, extra: seq<Segment>)
    ensures WriteModule(ModuleOf(imports, tick, extra))
         == [0x00, 0x61, 0x73, 0x6D, 0x01, 0x00, 0x00, 0x00]
            + (Numbered(1, TypeBytes(imports)) + (Numbered(2, WriteVec(WriteImport, ImportsOf(imports)))
            + (Numbered(3, [3, 0, 1, 2]) + (Numbered(5, [1, 1, 1, 1])
            + (Numbered(7, ExportBytes(|imports|)) + (Numbered(10, BodyBytes(tick))
            + Numbered(11, DataBytes(32, Ascii("set_color_index"), extra))))))))
  {
    PartsAre(imports, tick, extra);
    hide *;
    ModuleIs(ModuleOf(imports, tick, extra));
    TypesAre(imports);
    FixedPayloads();
    ExportsAre(|imports|);
    BodiesAre(tick);
    DataIs(32, Ascii("set_color_index"), extra);
  }

  lemma PartsAre(imports: seq<HostFunction>, tick: seq<Byte>, extra: seq<Segment>)
    ensures var m := ModuleOf(imports, tick, extra);
      && m.types == TypesOf(imports) && m.imports == ImportsOf(imports) && m.exports == ExportsOf(|imports|)
      && m.functions == [0, 1, 2] && m.memories == [Limits(1, 1)] && m.bodies == [[0x41] + Sleb(0), tick, []]
      && m.data == [Segment(32, Ascii("set_color_index"))] + extra
  {
    hide TypesOf, ImportsOf, ExportsOf, Sleb, Ascii;
  }
}
