/**
 Objects as they are meant, and how they are written: sections in any order, with numbers written in any
 width. What the reader makes of the bytes is what the object means.
 */
module WasmEncode {
  import opened WasmObj

  // ---- objects ----

  /** A type: a function's, or one of a form the reader does not know. */
  datatype TypeDef = Function(params: Bytes, results: Bytes) | Unknown(form: Byte)

  datatype Bounds = Open(flags: Byte, low: nat) | Closed(flags: Byte, low: nat, high: nat)

  /** What is imported, by its kind. */
  datatype Thing =
    | Func(typ: nat)
    | Table(elem: Byte, bounds: Bounds)
    | Memory(bounds: Bounds)
    | Global(content: Byte, mut: Byte)
    | Tag(attr: Byte, typ: nat)
    | Other(kind: Byte)

  datatype Imported = Imported(mod: Bytes, name: Bytes, thing: Thing)

  datatype Sym =
    | FuncSym(flags: nat, index: nat, name: Bytes)
    | DataSym(flags: nat, name: Bytes, segment: nat, offset: nat, size: nat)
    | SectionSym(flags: nat, index: nat)
    | IndexSym(kind: Byte, flags: nat, index: nat, name: Bytes)
    | UnknownSym(kind: Byte, flags: nat)

  datatype Sub = SymTab(syms: seq<Sym>) | OtherSub(id: Byte, bytes: Bytes)

  datatype Sec =
    | Types(types: seq<TypeDef>)
    | Imports(imports: seq<Imported>)
    | Funcs(funcs: seq<nat>)
    | Linking(version: nat, subs: seq<Sub>)
    | Custom(name: Bytes, bytes: Bytes)
    | OtherSec(id: Byte, bytes: Bytes)

  predicate IsUndefined(flags: nat) {
    (flags / 16) % 2 == 1
  }

  predicate HasExplicitName(flags: nat) {
    (flags / 64) % 2 == 1
  }

  /** The symbol's name is written: it defines something, or says that it has a name of its own. */
  predicate WritesName(flags: nat) {
    !IsUndefined(flags) || HasExplicitName(flags)
  }

  // ---- writing ----

  /** A number in LEB128, in w bytes at least. */
  function Num(v: nat, w: nat): (b: Bytes)
    ensures |b| > 0
    decreases v, w
  {
    if v < 128 && w <= 1 then [v]
    else [v % 128 + 128] + Num(v / 128, if w == 0 then 0 else w - 1)
  }

  function Text(s: Bytes, w: nat): Bytes {
    Num(|s|, w) + s
  }

  function WriteType(t: TypeDef, w: nat): Bytes {
    match t
    case Function(params, results) => [0x60] + (Text(params, w) + Text(results, w))
    case Unknown(form) => [form]
  }

  function WriteTypes(ts: seq<TypeDef>, w: nat): Bytes {
    if ts == [] then [] else WriteType(ts[0], w) + WriteTypes(ts[1..], w)
  }

  function WriteBounds(b: Bounds, w: nat): Bytes {
    match b
    case Open(flags, low) => [flags] + Num(low, w)
    case Closed(flags, low, high) => [flags] + (Num(low, w) + Num(high, w))
  }

  function WriteThing(t: Thing, w: nat): Bytes {
    match t
    case Func(typ) => [0] + Num(typ, w)
    case Table(elem, bounds) => [1] + ([elem] + WriteBounds(bounds, w))
    case Memory(bounds) => [2] + WriteBounds(bounds, w)
    case Global(content, mut) => [3] + ([content] + [mut])
    case Tag(attr, typ) => [4] + ([attr] + Num(typ, w))
    case Other(kind) => [kind]
  }

  function WriteImport(i: Imported, w: nat): Bytes {
    Text(i.mod, w) + (Text(i.name, w) + WriteThing(i.thing, w))
  }

  function WriteImports(imps: seq<Imported>, w: nat): Bytes {
    if imps == [] then [] else WriteImport(imps[0], w) + WriteImports(imps[1..], w)
  }

  function WriteFuncs(fs: seq<nat>, w: nat): Bytes {
    if fs == [] then [] else Num(fs[0], w) + WriteFuncs(fs[1..], w)
  }

  /** Where a data symbol that defines something lies. */
  function WritePlace(s: Sym, w: nat): Bytes
    requires s.DataSym?
  {
    Num(s.segment, w) + (Num(s.offset, w) + Num(s.size, w))
  }

  /** What follows the kind of a symbol. */
  function WriteSymRest(s: Sym, w: nat): Bytes {
    match s
    case FuncSym(flags, index, name) =>
      Num(flags, w) + (Num(index, w) + if WritesName(flags) then Text(name, w) else [])
    case DataSym(flags, name, segment, offset, size) =>
      Num(flags, w) + (Text(name, w) + if IsUndefined(flags) then [] else WritePlace(s, w))
    case SectionSym(flags, index) => Num(flags, w) + Num(index, w)
    case IndexSym(_, flags, index, name) =>
      Num(flags, w) + (Num(index, w) + if WritesName(flags) then Text(name, w) else [])
    case UnknownSym(_, flags) => Num(flags, w)
  }

  function KindOf(s: Sym): Byte {
    match s
    case FuncSym(_, _, _) => 0
    case DataSym(_, _, _, _, _) => 1
    case SectionSym(_, _) => 3
    case IndexSym(kind, _, _, _) => kind
    case UnknownSym(kind, _) => kind
  }

  function WriteSym(s: Sym, w: nat): Bytes {
    [KindOf(s)] + WriteSymRest(s, w)
  }

  function WriteSyms(ss: seq<Sym>, w: nat): Bytes {
    if ss == [] then [] else WriteSym(ss[0], w) + WriteSyms(ss[1..], w)
  }

  function SubBody(s: Sub, w: nat): Bytes {
    match s
    case SymTab(syms) => Num(|syms|, w) + WriteSyms(syms, w)
    case OtherSub(_, bytes) => bytes
  }

  function SubId(s: Sub): Byte {
    match s case SymTab(_) => 8 case OtherSub(id, _) => id
  }

  function WriteSub(s: Sub, w: nat): Bytes {
    [SubId(s)] + Text(SubBody(s, w), w)
  }

  function WriteSubs(ss: seq<Sub>, w: nat): Bytes {
    if ss == [] then [] else WriteSub(ss[0], w) + WriteSubs(ss[1..], w)
  }

  function SecBody(s: Sec, w: nat): Bytes {
    match s
    case Types(types) => Num(|types|, w) + WriteTypes(types, w)
    case Imports(imports) => Num(|imports|, w) + WriteImports(imports, w)
    case Funcs(funcs) => Num(|funcs|, w) + WriteFuncs(funcs, w)
    case Linking(version, subs) => Text(LINKING_NAME, w) + (Num(version, w) + WriteSubs(subs, w))
    case Custom(name, bytes) => Text(name, w) + bytes
    case OtherSec(_, bytes) => bytes
  }

  /** "linking". */
  const LINKING_NAME: Bytes := [108, 105, 110, 107, 105, 110, 103]

  function SecId(s: Sec): Byte {
    match s
    case Types(_) => 1
    case Imports(_) => 2
    case Funcs(_) => 3
    case Linking(_, _) => 0
    case Custom(_, _) => 0
    case OtherSec(id, _) => id
  }

  function WriteSec(s: Sec, w: nat): Bytes {
    [SecId(s)] + Text(SecBody(s, w), w)
  }

  function WriteSecs(ss: seq<Sec>, w: nat): Bytes {
    if ss == [] then [] else WriteSec(ss[0], w) + WriteSecs(ss[1..], w)
  }

  /** The magic number and version of a wasm module. */
  const HEADER: Bytes := [0, 97, 115, 109] + [1, 0, 0, 0]

  function WriteObject(ss: seq<Sec>, w: nat): Bytes {
    HEADER + WriteSecs(ss, w)
  }

  // ---- what can be written ----

  const WORD: nat := 0x1_0000_0000_0000_0000

  predicate BoundsOk(b: Bounds) {
    b.Closed? <==> b.flags % 2 == 1
  }

  predicate ThingOk(t: Thing) {
    match t
    case Table(_, bounds) => BoundsOk(bounds)
    case Memory(bounds) => BoundsOk(bounds)
    case Other(kind) => kind > 4
    case _ => true
  }

  /** Flags and indices are 64-bit; a name that is not written is empty. */
  predicate SymOk(s: Sym) {
    && s.flags < WORD
    && match s
       case FuncSym(flags, index, name) => index < WORD && (!WritesName(flags) ==> name == [])
       case SectionSym(_, index) => index < WORD
       case IndexSym(kind, flags, index, name) =>
         (kind == 2 || kind == 4 || kind == 5) && index < WORD && (!WritesName(flags) ==> name == [])
       case UnknownSym(kind, _) => kind > 5
       case DataSym(_, _, _, _, _) => true
  }

  predicate TypesOk(ts: seq<TypeDef>) {
    ts == [] || ((ts[0].Unknown? ==> ts[0].form != 0x60) && TypesOk(ts[1..]))
  }

  predicate ImportsOk(imps: seq<Imported>) {
    imps == [] || (ThingOk(imps[0].thing) && ImportsOk(imps[1..]))
  }

  predicate FuncsOk(fs: seq<nat>) {
    fs == [] || (fs[0] < WORD && FuncsOk(fs[1..]))
  }

  predicate SymsOk(ss: seq<Sym>) {
    ss == [] || (SymOk(ss[0]) && SymsOk(ss[1..]))
  }

  predicate SubOk(s: Sub) {
    match s
    case SymTab(syms) => SymsOk(syms)
    case OtherSub(id, _) => id != 8
  }

  predicate SubsOk(ss: seq<Sub>) {
    ss == [] || (SubOk(ss[0]) && SubsOk(ss[1..]))
  }

  predicate SecOk(s: Sec) {
    match s
    case Types(types) => TypesOk(types)
    case Imports(imports) => ImportsOk(imports)
    case Funcs(funcs) => FuncsOk(funcs)
    case Linking(_, subs) => SubsOk(subs)
    case Custom(name, _) => name != LINKING_NAME
    case OtherSec(id, _) => id > 3
  }

  predicate SecsOk(ss: seq<Sec>) {
    ss == [] || (SecOk(ss[0]) && SecsOk(ss[1..]))
  }

  // ---- what it means ----

  /** The functions among some imports. */
  function FuncsIn(imps: seq<Imported>): nat {
    if imps == [] then 0 else (if imps[0].thing.Func? then 1 else 0) + FuncsIn(imps[1..])
  }

  /** Type indices as they are kept: 32 bits of them. */
  function Low32(fs: seq<nat>): seq<nat> {
    if fs == [] then [] else [fs[0] % 0x1_0000_0000] + Low32(fs[1..])
  }

  /** What the sections so far define, or why the reader gives up. */
  datatype Meaning = Means(st: State) | Fails(why: Why)

  predicate AllFunctions(ts: seq<TypeDef>) {
    ts == [] || (ts[0].Function? && AllFunctions(ts[1..]))
  }

  /** The signatures of some types. */
  function Sigs(ts: seq<TypeDef>): seq<FuncSig>
    requires AllFunctions(ts)
  {
    if ts == [] then [] else [FuncSig(ts[0].params, ts[0].results)] + Sigs(ts[1..])
  }

  /** Whether the function that a symbol defines is there, after the imported ones, and has a type. */
  predicate IndexOk(s: Sym, st: State) {
    s.FuncSym? && !IsUndefined(s.flags) ==> st.imported <= s.index < st.imported + |st.funcs|
  }

  predicate TypeOk(s: Sym, st: State)
    requires IndexOk(s, st)
  {
    s.FuncSym? && !IsUndefined(s.flags) ==> st.funcs[s.index - st.imported] < |st.types|
  }

  /** The symbol as the reader is to give it, written at i: its flags lie after its kind. */
  function SymbolOf(s: Sym, i: nat, st: State): Symbol
    requires IndexOk(s, st) && TypeOk(s, st)
  {
    var name := match s
                case FuncSym(_, _, name) => name
                case DataSym(_, name, _, _, _) => name
                case IndexSym(_, _, _, name) => name
                case _ => [];
    var func := if s.FuncSym? && !IsUndefined(s.flags) then Sig(st.types[st.funcs[s.index - st.imported]]) else NoSig;
    Symbol(KindOf(s), s.flags, i + 1, name, func)
  }

  /** The symbols of a table written from i on. */
  function SymsMean(ss: seq<Sym>, w: nat, i: nat, st: State): Meaning
    decreases |ss|
  {
    if ss == [] then Means(st)
    else if ss[0].UnknownSym? || !IndexOk(ss[0], st) then Fails(Error)
    else if !TypeOk(ss[0], st) then Fails(Panic)
    else SymsMean(ss[1..], w, i + |WriteSym(ss[0], w)|, st.(syms := st.syms + [SymbolOf(ss[0], i, st)]))
  }

  function SubsMean(ss: seq<Sub>, w: nat, i: nat, st: State): Meaning
    decreases |ss|
  {
    if ss == [] then Means(st)
    else
      var next := i + |WriteSub(ss[0], w)|;
      match ss[0]
      case OtherSub(_, _) => SubsMean(ss[1..], w, next, st)
      case SymTab(syms) =>
        match SymsMean(syms, w, next - |WriteSyms(syms, w)|, st)
        case Means(st') => SubsMean(ss[1..], w, next, st')
        case Fails(why) => Fails(why)
  }

  /** One section, written from i on. */
  function SecMeans(s: Sec, w: nat, i: nat, st: State): Meaning {
    match s
    case Types(types) =>
      if AllFunctions(types) then Means(st.(types := st.types + Sigs(types)))
      else Fails(Error)
    case Imports(imports) => Means(st.(imported := st.imported + FuncsIn(imports)))
    case Funcs(funcs) => Means(st.(funcs := st.funcs + Low32(funcs)))
    case Linking(_, subs) => SubsMean(subs, w, i + |WriteSec(s, w)| - |WriteSubs(subs, w)|, st.(found := true))
    case _ => Means(st)
  }

  function SecsMean(ss: seq<Sec>, w: nat, i: nat, st: State): Meaning
    decreases |ss|
  {
    if ss == [] then Means(st)
    else
      match SecMeans(ss[0], w, i, st)
      case Means(st') => SecsMean(ss[1..], w, i + |WriteSec(ss[0], w)|, st')
      case Fails(why) => Fails(why)
  }
}
