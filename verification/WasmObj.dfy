/**
 The reader of a relocatable object's symbol table, as functions of the file's bytes.

 A Go slice expression is bounded by the capacity of the slice, not by its length, so a
 slice taken of a section's bytes may run past the section's end. The parameter strict
 says which bound applies: false is what the code does, true is the bound by length.
 */
module WasmObj {

  type Byte = b: int | 0 <= b < 256
  type Bytes = seq<Byte>

  /** Error is an error return, Panic an index or slice bound out of range. */
  datatype Why = Error | Panic

  datatype Parse<+T> = Ok(value: T, i: nat) | Fail(why: Why) {
    predicate IsFailure() { Fail? }
    function PropagateFailure<U>(): Parse<U>
      requires Fail?
    {
      Fail(why)
    }
    function Extract(): (T, nat)
      requires Ok?
    {
      (value, i)
    }
  }

  const KIND_FUNCTION := 0
  const KIND_DATA := 1
  const KIND_SECTION := 3
  const KIND_TABLE := 5

  /** Whether the bit of value w, a power of two, is set in x. */
  predicate Bit(x: nat, w: nat)
    requires w > 0
  {
    (x / w) % 2 == 1
  }

  /** x | w. */
  function SetBit(x: nat, w: nat): nat
    requires w > 0
  {
    if Bit(x, w) then x else x + w
  }

  const FLAG_LOCAL := 0x2
  const FLAG_UNDEFINED := 0x10
  const FLAG_EXPLICIT_NAME := 0x40

  const LINKING: Bytes := [0x6c, 0x69, 0x6e, 0x6b, 0x69, 0x6e, 0x67]

  datatype FuncSig = FuncSig(params: Bytes, results: Bytes)
  datatype OptSig = NoSig | Sig(sig: FuncSig)

  datatype Symbol = Symbol(kind: Byte, flags: nat, offset: nat, name: Bytes, func: OptSig) {
    predicate Defined() { !Bit(flags, FLAG_UNDEFINED) }
    predicate Local() { Bit(flags, FLAG_LOCAL) }
    predicate Named() { Defined() || Bit(flags, FLAG_EXPLICIT_NAME) }
  }

  // ---- the reader ----

  function ByteAt(m: Bytes, i: nat, end: nat): (r: Parse<Byte>)
    requires end <= |m|
    ensures r.Ok? ==> i < r.i <= end
  {
    if i < end then Ok(m[i], i + 1) else Fail(Panic)
  }

  const TWO64 := 0x1_0000_0000_0000_0000

  /** An unsigned LEB128 number, low seven bits first, before it is cut to 64 bits. */
  function Uleb(m: Bytes, i: nat, end: nat): (r: Parse<nat>)
    requires end <= |m|
    ensures r.Ok? ==> i < r.i <= end
    decreases end - i
  {
    if i >= end then Fail(Panic)
    else if m[i] < 128 then Ok(m[i], i + 1)
    else
      var (rest, j) :- Uleb(m, i + 1, end);
      Ok(m[i] - 128 + 128 * rest, j)
  }

  /** A number cut to its low 64 bits. */
  function Cut64(v: nat): nat {
    if v < TWO64 then v else Cut64(v - TWO64)
  }

  /** A varint as the code has it. As a size, one of 2^63 or more is negative, and as out of bounds as it is here. */
  function U64(m: Bytes, i: nat, end: nat): (r: Parse<nat>)
    requires end <= |m|
    ensures r.Ok? ==> i < r.i <= end
  {
    var (v, j) :- Uleb(m, i, end);
    Ok(Cut64(v), j)
  }

  function Limit(m: Bytes, end: nat, strict: bool): nat {
    if strict then end else |m|
  }

  function Take(m: Bytes, i: nat, n: nat, end: nat, strict: bool): Parse<Bytes>
    requires end <= |m|
  {
    if i + n <= Limit(m, end, strict) then Ok(m[i..i + n], i + n) else Fail(Panic)
  }

  function Name(m: Bytes, i: nat, end: nat, strict: bool): (r: Parse<Bytes>)
    requires end <= |m|
    ensures r.Ok? ==> i < r.i <= Limit(m, end, strict)
  {
    var (n, j) :- U64(m, i, end);
    Take(m, j, n, end, strict)
  }

  function Limits(m: Bytes, i: nat, end: nat): (r: Parse<()>)
    requires end <= |m|
    ensures r.Ok? ==> i < r.i <= end
  {
    var (flags, j) :- ByteAt(m, i, end);
    var (_, k) :- Uleb(m, j, end);
    if flags % 2 == 1 then
      var (_, l) :- Uleb(m, k, end);
      Ok((), l)
    else Ok((), k)
  }

  // ---- sections ----

  function TypeLoop(m: Bytes, i: nat, end: nat, strict: bool, n: nat, acc: seq<FuncSig>): (r: Parse<seq<FuncSig>>)
    requires end <= |m|
    ensures r.Ok? ==> i <= r.i && (i <= end ==> r.i <= Limit(m, end, strict))
    decreases n
  {
    if n == 0 then Ok(acc, i)
    else
      var (form, j) :- ByteAt(m, i, end);
      if form != 0x60 then Fail(Error)
      else
        var (params, k) :- Name(m, j, end, strict);
        var (results, l) :- Name(m, k, end, strict);
        TypeLoop(m, l, end, strict, n - 1, acc + [FuncSig(params, results)])
  }

  /** The fields an import's kind is followed by; their values are not used. */
  datatype Field = FByte | FUleb | FLimits

  function ImportFields(kind: Byte): seq<Field> {
    if kind == 0 then [FUleb]
    else if kind == 1 then [FByte, FLimits]
    else if kind == 2 then [FLimits]
    else if kind == 3 then [FByte, FByte]
    else if kind == 4 then [FByte, FUleb]
    else []
  }

  function OneField(m: Bytes, i: nat, end: nat, f: Field): (r: Parse<()>)
    requires end <= |m|
    ensures r.Ok? ==> i < r.i <= end
  {
    match f
    case FByte =>
      var (_, j) :- ByteAt(m, i, end);
      Ok((), j)
    case FUleb =>
      var (_, j) :- Uleb(m, i, end);
      Ok((), j)
    case FLimits => Limits(m, i, end)
  }

  function Fields(m: Bytes, i: nat, end: nat, fs: seq<Field>): (r: Parse<()>)
    requires end <= |m|
    ensures r.Ok? ==> i <= r.i && (i <= end ==> r.i <= end)
    decreases |fs|
  {
    if fs == [] then Ok((), i)
    else
      var (_, j) :- OneField(m, i, end, fs[0]);
      Fields(m, j, end, fs[1..])
  }

  function Import(m: Bytes, i: nat, end: nat, strict: bool): (r: Parse<Byte>)
    requires end <= |m|
    ensures r.Ok? ==> i < r.i <= end
  {
    var (_, j) :- Name(m, i, end, strict);
    var (_, k) :- Name(m, j, end, strict);
    var (kind, l) :- ByteAt(m, k, end);
    var (_, o) :- Fields(m, l, end, ImportFields(kind));
    Ok(kind, o)
  }

  function ImportLoop(m: Bytes, i: nat, end: nat, strict: bool, n: nat, funcs: nat): (r: Parse<nat>)
    requires end <= |m|
    ensures r.Ok? ==> i <= r.i && (i <= end ==> r.i <= end)
    decreases n
  {
    if n == 0 then Ok(funcs, i)
    else
      var (kind, j) :- Import(m, i, end, strict);
      ImportLoop(m, j, end, strict, n - 1, if kind == 0 then funcs + 1 else funcs)
  }

  function FuncLoop(m: Bytes, i: nat, end: nat, n: nat, acc: seq<nat>): (r: Parse<seq<nat>>)
    requires end <= |m|
    ensures r.Ok? ==> i <= r.i && (i <= end ==> r.i <= end)
    decreases n
  {
    if n == 0 then Ok(acc, i)
    else
      var (t, j) :- U64(m, i, end);
      FuncLoop(m, j, end, n - 1, acc + [t % 0x1_0000_0000])
  }

  /** What the sections read so far have given. */
  datatype State = State(types: seq<FuncSig>, imported: nat, funcs: seq<nat>, syms: seq<Symbol>, found: bool)

  /** The signature of a defined function symbol: an error for a bad index, a panic for a bad type index. */
  function SigOf(st: State, idx: nat): Parse<OptSig> {
    var def := idx - st.imported;
    if def < 0 || def >= |st.funcs| then Fail(Error)
    else if st.funcs[def] >= |st.types| then Fail(Panic)
    else Ok(Sig(st.types[st.funcs[def]]), 0)
  }

  /**
   What follows the flags of a symbol: an index, unless it is data; its name, if it has one;
   for defined data three more numbers. A section symbol has an index only.
   */
  function SymbolRest(m: Bytes, i: nat, end: nat, strict: bool, st: State, s: Symbol): (r: Parse<Symbol>)
    requires end <= |m|
    ensures r.Ok? ==> i < r.i <= Limit(m, end, strict)
  {
    if s.kind > KIND_TABLE then Fail(Error)
    else
      var (idx, j) :- if s.kind == KIND_DATA then Ok(0, i) else U64(m, i, end);
      var (name, k) :- if s.kind == KIND_DATA || (s.kind != KIND_SECTION && s.Named())
                       then Name(m, j, end, strict) else Ok([], j);
      var (_, l) :- Fields(m, k, end, if s.kind == KIND_DATA && s.Defined() then [FUleb, FUleb, FUleb] else []);
      var (func, _) :- if s.kind == KIND_FUNCTION && s.Defined() then SigOf(st, idx) else Ok(NoSig, 0);
      Ok(s.(name := name, func := func), l)
  }

  function OneSymbol(m: Bytes, i: nat, end: nat, strict: bool, st: State): (r: Parse<Symbol>)
    requires end <= |m|
    ensures r.Ok? ==> i + 2 < r.i <= Limit(m, end, strict) && r.value.offset == i + 1 && i + 1 < end
  {
    var (kind, j) :- ByteAt(m, i, end);
    var (flags, k) :- U64(m, j, end);
    SymbolRest(m, k, end, strict, st, Symbol(kind, flags, j, [], NoSig))
  }

  function SymbolLoop(m: Bytes, i: nat, end: nat, strict: bool, n: nat, st: State): (r: Parse<State>)
    requires end <= |m|
    ensures r.Ok? ==> i <= r.i && (i <= end ==> r.i <= Limit(m, end, strict))
    decreases n
  {
    if n == 0 then Ok(st, i)
    else
      var (s, j) :- OneSymbol(m, i, end, strict, st);
      SymbolLoop(m, j, end, strict, n - 1, st.(syms := st.syms + [s]))
  }

  function SymbolTable(m: Bytes, i: nat, end: nat, strict: bool, st: State): Parse<State>
    requires end <= |m|
  {
    var (n, j) :- U64(m, i, end);
    SymbolLoop(m, j, end, strict, n, st)
  }

  /** One subsection of the linking section. */
  function Subsection(m: Bytes, i: nat, end: nat, strict: bool, st: State): (r: Parse<State>)
    requires end <= |m|
    ensures r.Ok? ==> i < r.i <= |m|
  {
    var (id, j) :- ByteAt(m, i, end);
    var (size, k) :- U64(m, j, end);
    if k + size > Limit(m, end, strict) then Fail(Panic)
    else if id != 8 then Ok(st, k + size)
    else
      match SymbolTable(m, k, k + size, strict, st)
      case Ok(st', _) => Ok(st', k + size)
      case Fail(why) => Fail(why)
  }

  function LinkingLoop(m: Bytes, i: nat, end: nat, strict: bool, st: State): Parse<State>
    requires end <= |m|
    decreases end - i
  {
    if i >= end then Ok(st, i)
    else
      var (st', j) :- Subsection(m, i, end, strict, st);
      LinkingLoop(m, j, end, strict, st')
  }

  function CustomSection(m: Bytes, i: nat, end: nat, strict: bool, st: State): Parse<State>
    requires end <= |m|
  {
    var (name, j) :- Name(m, i, end, strict);
    if name != LINKING then Ok(st, j)
    else
      var (_, k) :- Uleb(m, j, end);
      LinkingLoop(m, k, end, strict, st.(found := true))
  }

  /** The sections with a count first: types, imports and functions. */
  function CountedSection(m: Bytes, id: Byte, i: nat, end: nat, strict: bool, st: State): Parse<State>
    requires end <= |m|
  {
    var (n, j) :- U64(m, i, end);
    if id == 1 then
      var (types, k) :- TypeLoop(m, j, end, strict, n, st.types);
      Ok(st.(types := types), k)
    else if id == 2 then
      var (imported, k) :- ImportLoop(m, j, end, strict, n, st.imported);
      Ok(st.(imported := imported), k)
    else
      var (funcs, k) :- FuncLoop(m, j, end, n, st.funcs);
      Ok(st.(funcs := funcs), k)
  }

  /** The contents of a section. */
  function Contents(m: Bytes, id: Byte, i: nat, end: nat, strict: bool, st: State): Parse<State>
    requires end <= |m|
  {
    if id == 0 then CustomSection(m, i, end, strict, st)
    else if id <= 3 then CountedSection(m, id, i, end, strict, st)
    else Ok(st, i)
  }

  function Section(m: Bytes, i: nat, end: nat, strict: bool, st: State): (r: Parse<State>)
    requires end <= |m|
    ensures r.Ok? ==> i < r.i <= |m|
  {
    var (id, j) :- ByteAt(m, i, end);
    var (size, k) :- U64(m, j, end);
    if k + size > Limit(m, end, strict) then Fail(Panic)
    else
      match Contents(m, id, k, k + size, strict, st)
      case Ok(st', _) => Ok(st', k + size)
      case Fail(why) => Fail(why)
  }

  function SectionLoop(m: Bytes, i: nat, end: nat, strict: bool, st: State): Parse<State>
    requires end <= |m|
    decreases end - i
  {
    if i >= end then Ok(st, i)
    else
      var (st', j) :- Section(m, i, end, strict, st);
      SectionLoop(m, j, end, strict, st')
  }

  const EMPTY := State([], 0, [], [], false)

  predicate IsModule(m: Bytes, len: nat)
    requires len <= |m|
  {
    len >= 8 && m[..8] == [0x00, 0x61, 0x73, 0x6d, 0x01, 0x00, 0x00, 0x00]
  }

  /** Symbols(data), where data is the first len bytes of a buffer m. */
  function Symbols(m: Bytes, len: nat, strict: bool): Parse<seq<Symbol>>
    requires len <= |m|
  {
    if !IsModule(m, len) then Fail(Error)
    else
      var (st, i) :- SectionLoop(m, 8, len, strict, EMPTY);
      if st.found then Ok(st.syms, i) else Fail(Error)
  }
}
