/** Reading what was written: the reader's result is what the object means, of every object. */
module WasmRoundTrip {
  import opened WasmObj
  import opened WasmEncode

  /** b lies at i. */
  predicate At(m: Bytes, i: nat, b: Bytes) {
    i + |b| <= |m| && m[i..i + |b|] == b
  }

  lemma AtSplit(m: Bytes, i: nat, a: Bytes, b: Bytes)
    requires At(m, i, a + b)
    ensures At(m, i, a) && At(m, i + |a|, b)
  {
    assert m[i..i + |a|] == m[i..i + |a + b|][..|a|] == a;
    assert m[i + |a|..i + |a| + |b|] == m[i..i + |a + b|][|a|..] == b;
  }

  lemma AtFirst(m: Bytes, i: nat, c: Byte, b: Bytes)
    requires At(m, i, [c] + b)
    ensures i < |m| && m[i] == c && At(m, i + 1, b)
  {
    AtSplit(m, i, [c], b);
    assert m[i..i + 1][0] == m[i];
  }

  // ---- numbers and names ----

  lemma {:induction false} ReadNum(m: Bytes, i: nat, end: nat, v: nat, w: nat)
    requires At(m, i, Num(v, w)) && i + |Num(v, w)| <= end <= |m|
    ensures Uleb(m, i, end) == Ok(v, i + |Num(v, w)|)
    decreases v, w
  {
    if v < 128 && w <= 1 {
      assert m[i..i + 1][0] == m[i];
    } else {
      var w' := if w == 0 then 0 else w - 1;
      AtFirst(m, i, v % 128 + 128, Num(v / 128, w'));
      ReadNum(m, i + 1, end, v / 128, w');
    }
  }

  lemma ReadWord(m: Bytes, i: nat, end: nat, v: nat, w: nat)
    requires At(m, i, Num(v, w)) && i + |Num(v, w)| <= end <= |m| && v < WORD
    ensures U64(m, i, end) == Ok(v, i + |Num(v, w)|)
  {
    ReadNum(m, i, end, v, w);
  }

  lemma ReadText(m: Bytes, i: nat, end: nat, strict: bool, s: Bytes, w: nat)
    requires At(m, i, Text(s, w)) && i + |Text(s, w)| <= end <= |m| < WORD
    ensures Name(m, i, end, strict) == Ok(s, i + |Text(s, w)|)
  {
    AtSplit(m, i, Num(|s|, w), s);
    ReadWord(m, i, end, |s|, w);
  }

  // ---- types, imports and functions ----

  /** A function type is read, and the reader goes on after it. */
  lemma ReadType(m: Bytes, i: nat, end: nat, strict: bool, t: TypeDef, w: nat, n: nat, acc: seq<FuncSig>)
    requires t.Function? && n > 0 && At(m, i, WriteType(t, w)) && i + |WriteType(t, w)| <= end <= |m| < WORD
    ensures TypeLoop(m, i, end, strict, n, acc) ==
            TypeLoop(m, i + |WriteType(t, w)|, end, strict, n - 1, acc + [FuncSig(t.params, t.results)])
  {
    hide Name, At, Text;
    AtFirst(m, i, 0x60, Text(t.params, w) + Text(t.results, w));
    AtSplit(m, i + 1, Text(t.params, w), Text(t.results, w));
    ReadText(m, i + 1, end, strict, t.params, w);
    ReadText(m, i + 1 + |Text(t.params, w)|, end, strict, t.results, w);
  }

  /** A type of another form is an error. */
  lemma UnknownForm(m: Bytes, i: nat, end: nat, strict: bool, t: TypeDef, w: nat, n: nat, acc: seq<FuncSig>)
    requires t.Unknown? && t.form != 0x60 && n > 0 && At(m, i, WriteType(t, w)) && i + |WriteType(t, w)| <= end <= |m|
    ensures TypeLoop(m, i, end, strict, n, acc) == Fail(Error)
  {
    assert m[i..i + 1][0] == m[i];
  }

  lemma NoTypes(m: Bytes, i: nat, end: nat, strict: bool, acc: seq<FuncSig>)
    requires end <= |m|
    ensures TypeLoop(m, i, end, strict, 0, acc) == Ok(acc, i)
  {
  }

  lemma {:induction false} ReadTypes(m: Bytes, i: nat, end: nat, strict: bool,
                                     ts: seq<TypeDef>, w: nat, acc: seq<FuncSig>)
    requires At(m, i, WriteTypes(ts, w)) && i + |WriteTypes(ts, w)| <= end <= |m| < WORD && TypesOk(ts)
    ensures TypeLoop(m, i, end, strict, |ts|, acc) ==
            if AllFunctions(ts) then Ok(acc + Sigs(ts), i + |WriteTypes(ts, w)|) else Fail(Error)
    decreases |ts|
  {
    hide TypeLoop, At, WriteType;
    if ts == [] {
      NoTypes(m, i, end, strict, acc);
      assert acc + [] == acc;
    } else {
      AtSplit(m, i, WriteType(ts[0], w), WriteTypes(ts[1..], w));
      if ts[0].Unknown? {
        UnknownForm(m, i, end, strict, ts[0], w, |ts|, acc);
      } else {
        var sig := FuncSig(ts[0].params, ts[0].results);
        ReadType(m, i, end, strict, ts[0], w, |ts|, acc);
        ReadTypes(m, i + |WriteType(ts[0], w)|, end, strict, ts[1..], w, acc + [sig]);
        if AllFunctions(ts) {
          assert acc + [sig] + Sigs(ts[1..]) == acc + Sigs(ts);
        }
      }
    }
  }

  lemma ReadBounds(m: Bytes, i: nat, end: nat, b: Bounds, w: nat)
    requires At(m, i, WriteBounds(b, w)) && i + |WriteBounds(b, w)| <= end <= |m| && BoundsOk(b)
    ensures Limits(m, i, end) == Ok((), i + |WriteBounds(b, w)|)
  {
    hide At, Num, Uleb;
    match b
    case Open(flags, low) =>
      AtFirst(m, i, flags, Num(low, w));
      ReadNum(m, i + 1, end, low, w);
    case Closed(flags, low, high) =>
      AtFirst(m, i, flags, Num(low, w) + Num(high, w));
      AtSplit(m, i + 1, Num(low, w), Num(high, w));
      ReadNum(m, i + 1, end, low, w);
      ReadNum(m, i + 1 + |Num(low, w)|, end, high, w);
  }

  /** The kind of what is imported. */
  function ThingKind(t: Thing): Byte {
    match t
    case Func(_) => 0
    case Table(_, _) => 1
    case Memory(_) => 2
    case Global(_, _) => 3
    case Tag(_, _) => 4
    case Other(kind) => kind
  }

  /** Things of one field. */
  lemma ReadShort(m: Bytes, i: nat, end: nat, t: Thing, w: nat)
    requires At(m, i, WriteThing(t, w)) && i + |WriteThing(t, w)| <= end <= |m| && ThingOk(t)
    requires t.Func? || t.Memory? || t.Other?
    ensures i < end && m[i] == ThingKind(t)
    ensures Fields(m, i + 1, end, ImportFields(m[i])) == Ok((), i + |WriteThing(t, w)|)
  {
    hide At, Num, Uleb, Limits, WriteBounds;
    assert forall f: Field :: [f][1..] == [];
    match t
    case Func(typ) =>
      AtFirst(m, i, 0, Num(typ, w));
      ReadNum(m, i + 1, end, typ, w);
    case Memory(bounds) =>
      AtFirst(m, i, 2, WriteBounds(bounds, w));
      ReadBounds(m, i + 1, end, bounds, w);
    case Other(kind) =>
      assert [kind] + [] == [kind];
      AtFirst(m, i, kind, []);
  }

  lemma OneThenOne(m: Bytes, i: nat, j: nat, k: nat, end: nat, f: Field, g: Field)
    requires end <= |m| && OneField(m, i, end, f) == Ok((), j) && OneField(m, j, end, g) == Ok((), k)
    ensures Fields(m, i, end, [f, g]) == Ok((), k)
  {
    hide OneField;
    assert [f, g][1..] == [g] && [g][1..] == [];
    assert Fields(m, k, end, []) == Ok((), k);
    assert Fields(m, j, end, [g]) == Ok((), k);
  }

  /** Things of two fields. */
  lemma ReadLong(m: Bytes, i: nat, end: nat, t: Thing, w: nat)
    requires At(m, i, WriteThing(t, w)) && i + |WriteThing(t, w)| <= end <= |m| && ThingOk(t)
    requires t.Table? || t.Global? || t.Tag?
    ensures i < end && m[i] == ThingKind(t)
    ensures Fields(m, i + 1, end, ImportFields(m[i])) == Ok((), i + |WriteThing(t, w)|)
  {
    hide At, Num, Uleb, Limits, WriteBounds, Fields;
    var end' := i + |WriteThing(t, w)|;
    match t
    case Table(elem, bounds) =>
      AtFirst(m, i, 1, [elem] + WriteBounds(bounds, w));
      AtFirst(m, i + 1, elem, WriteBounds(bounds, w));
      ReadBounds(m, i + 2, end, bounds, w);
      OneThenOne(m, i + 1, i + 2, end', end, FByte, FLimits);
    case Global(content, mut) =>
      AtFirst(m, i, 3, [content] + [mut]);
      AtFirst(m, i + 1, content, [mut]);
      OneThenOne(m, i + 1, i + 2, end', end, FByte, FByte);
    case Tag(attr, typ) =>
      AtFirst(m, i, 4, [attr] + Num(typ, w));
      AtFirst(m, i + 1, attr, Num(typ, w));
      ReadNum(m, i + 2, end, typ, w);
      OneThenOne(m, i + 1, i + 2, end', end, FByte, FUleb);
  }

  lemma ReadThing(m: Bytes, i: nat, end: nat, t: Thing, w: nat)
    requires At(m, i, WriteThing(t, w)) && i + |WriteThing(t, w)| <= end <= |m| && ThingOk(t)
    ensures i < end && m[i] == ThingKind(t)
    ensures Fields(m, i + 1, end, ImportFields(m[i])) == Ok((), i + |WriteThing(t, w)|)
  {
    hide *;
    if t.Func? || t.Memory? || t.Other? {
      ReadShort(m, i, end, t, w);
    } else {
      ReadLong(m, i, end, t, w);
    }
  }

  lemma ReadImport(m: Bytes, i: nat, end: nat, strict: bool, imp: Imported, w: nat)
    requires At(m, i, WriteImport(imp, w)) && i + |WriteImport(imp, w)| <= end <= |m| < WORD && ThingOk(imp.thing)
    ensures Import(m, i, end, strict) == Ok(ThingKind(imp.thing), i + |WriteImport(imp, w)|)
  {
    hide Name, Fields, At, Text, WriteThing;
    var j := i + |Text(imp.mod, w)|;
    var k := j + |Text(imp.name, w)|;
    AtSplit(m, i, Text(imp.mod, w), Text(imp.name, w) + WriteThing(imp.thing, w));
    AtSplit(m, j, Text(imp.name, w), WriteThing(imp.thing, w));
    ReadText(m, i, end, strict, imp.mod, w);
    ReadText(m, j, end, strict, imp.name, w);
    ReadThing(m, k, end, imp.thing, w);
  }

  lemma {:induction false} ReadImports(m: Bytes, i: nat, end: nat, strict: bool,
                                       imps: seq<Imported>, w: nat, funcs: nat)
    requires At(m, i, WriteImports(imps, w)) && i + |WriteImports(imps, w)| <= end <= |m| < WORD && ImportsOk(imps)
    ensures ImportLoop(m, i, end, strict, |imps|, funcs) == Ok(funcs + FuncsIn(imps), i + |WriteImports(imps, w)|)
    decreases |imps|
  {
    hide Import, At, WriteImport, ThingOk;
    if imps != [] {
      AtSplit(m, i, WriteImport(imps[0], w), WriteImports(imps[1..], w));
      ReadImport(m, i, end, strict, imps[0], w);
      FuncIsKindZero(imps[0].thing);
      var more := if imps[0].thing.Func? then 1 else 0;
      ReadImports(m, i + |WriteImport(imps[0], w)|, end, strict, imps[1..], w, funcs + more);
    }
  }

  lemma FuncIsKindZero(t: Thing)
    requires ThingOk(t)
    ensures ThingKind(t) == 0 <==> t.Func?
  {
  }

  lemma {:induction false} ReadFuncs(m: Bytes, i: nat, end: nat, fs: seq<nat>, w: nat, acc: seq<nat>)
    requires At(m, i, WriteFuncs(fs, w)) && i + |WriteFuncs(fs, w)| <= end <= |m| && FuncsOk(fs)
    ensures FuncLoop(m, i, end, |fs|, acc) == Ok(acc + Low32(fs), i + |WriteFuncs(fs, w)|)
    decreases |fs|
  {
    hide U64, At, Num;
    if fs == [] {
      assert acc + [] == acc;
    } else {
      AtSplit(m, i, Num(fs[0], w), WriteFuncs(fs[1..], w));
      ReadWord(m, i, end, fs[0], w);
      ReadFuncs(m, i + |Num(fs[0], w)|, end, fs[1..], w, acc + [fs[0] % 0x1_0000_0000]);
      assert acc + [fs[0] % 0x1_0000_0000] + Low32(fs[1..]) == acc + Low32(fs);
    }
  }

  // ---- symbols ----

  /** The reader's flags are those of the object. */
  lemma FlagsMean(s: Symbol)
    ensures s.Defined() <==> !IsUndefined(s.flags)
    ensures s.Named() <==> WritesName(s.flags)
  {
  }

  /** What the reader is to make of one symbol written at i. */
  function Expected(s: Sym, w: nat, i: nat, st: State): Parse<Symbol> {
    if s.UnknownSym? || !IndexOk(s, st) then Fail(Error)
    else if !TypeOk(s, st) then Fail(Panic)
    else Ok(SymbolOf(s, i, st), i + |WriteSym(s, w)|)
  }

  /** The signature of a function symbol. */
  lemma SigMeans(s: Sym, st: State)
    requires s.FuncSym? && !IsUndefined(s.flags)
    ensures SigOf(st, s.index) ==
            if !IndexOk(s, st) then Fail(Error)
            else if !TypeOk(s, st) then Fail(Panic)
            else Ok(Sig(st.types[st.funcs[s.index - st.imported]]), 0)
  {
  }

  lemma ReadNamed(m: Bytes, i: nat, end: nat, strict: bool, flags: nat, index: nat, name: Bytes, w: nat)
    requires At(m, i, Num(index, w) + if WritesName(flags) then Text(name, w) else [])
    requires i + |Num(index, w) + if WritesName(flags) then Text(name, w) else []| <= end <= |m| < WORD && index < WORD
    ensures var j := i + |Num(index, w)|;
            && U64(m, i, end) == Ok(index, j)
            && (WritesName(flags) ==> Name(m, j, end, strict) == Ok(name, j + |Text(name, w)|))
  {
    hide Name, U64, At, Num, Text;
    var j := i + |Num(index, w)|;
    AtSplit(m, i, Num(index, w), if WritesName(flags) then Text(name, w) else []);
    ReadWord(m, i, end, index, w);
    if WritesName(flags) {
      ReadText(m, j, end, strict, name, w);
    }
  }

  lemma ReadPlace(m: Bytes, i: nat, end: nat, s: Sym, w: nat)
    requires s.DataSym? && At(m, i, WritePlace(s, w)) && i + |WritePlace(s, w)| <= end <= |m|
    ensures Fields(m, i, end, [FUleb, FUleb, FUleb]) == Ok((), i + |WritePlace(s, w)|)
  {
    hide At, Num, Uleb;
    var j := i + |Num(s.segment, w)|;
    AtSplit(m, i, Num(s.segment, w), Num(s.offset, w) + Num(s.size, w));
    AtSplit(m, j, Num(s.offset, w), Num(s.size, w));
    ReadNum(m, i, end, s.segment, w);
    ReadNum(m, j, end, s.offset, w);
    ReadNum(m, j + |Num(s.offset, w)|, end, s.size, w);
    assert [FUleb, FUleb, FUleb][1..] == [FUleb, FUleb] && [FUleb, FUleb][1..] == [FUleb] && [FUleb][1..] == [];
  }

  /** What the reader is given of a symbol before it reads what follows the flags. */
  function Start(s: Sym, i: nat): Symbol {
    Symbol(KindOf(s), s.flags, i + 1, [], NoSig)
  }

  /** The rest of a symbol that has an index, and a name if it is written: a function, global, tag or table. */
  lemma TailNamed(m: Bytes, i: nat, j: nat, end: nat, strict: bool, s: Sym, w: nat, st: State)
    requires SymOk(s) && (s.FuncSym? || s.IndexSym?) && end <= |m| < WORD
    requires j == i + 1 + |Num(s.flags, w)| && i + |WriteSym(s, w)| <= end && At(m, i + 1, WriteSymRest(s, w))
    ensures SymbolRest(m, j, end, strict, st, Start(s, i)) == Expected(s, w, i, st)
  {
    hide Name, U64, SigOf, Num, Text, At;
    FlagsMean(Start(s, i));
    var named := if WritesName(s.flags) then Text(s.name, w) else [];
    AtSplit(m, i + 1, Num(s.flags, w), Num(s.index, w) + named);
    ReadNamed(m, j, end, strict, s.flags, s.index, s.name, w);
    if s.FuncSym? && !IsUndefined(s.flags) {
      SigMeans(s, st);
    }
  }

  lemma TailData(m: Bytes, i: nat, j: nat, end: nat, strict: bool, s: Sym, w: nat, st: State)
    requires SymOk(s) && s.DataSym? && end <= |m| < WORD
    requires j == i + 1 + |Num(s.flags, w)| && i + |WriteSym(s, w)| <= end && At(m, i + 1, WriteSymRest(s, w))
    ensures SymbolRest(m, j, end, strict, st, Start(s, i)) == Expected(s, w, i, st)
  {
    hide Name, Fields, Num, Text, At, WritePlace;
    FlagsMean(Start(s, i));
    var place := if IsUndefined(s.flags) then [] else WritePlace(s, w);
    AtSplit(m, i + 1, Num(s.flags, w), Text(s.name, w) + place);
    AtSplit(m, j, Text(s.name, w), place);
    ReadText(m, j, end, strict, s.name, w);
    var k := j + |Text(s.name, w)|;
    if IsUndefined(s.flags) {
      assert Fields(m, k, end, []) == Ok((), k) by {
        NoFields(m, k, end);
      }
    } else {
      ReadPlace(m, k, end, s, w);
    }
  }

  lemma NoFields(m: Bytes, k: nat, end: nat)
    requires end <= |m|
    ensures Fields(m, k, end, []) == Ok((), k)
  {
  }

  lemma TailSection(m: Bytes, i: nat, j: nat, end: nat, strict: bool, s: Sym, w: nat, st: State)
    requires SymOk(s) && s.SectionSym? && end <= |m| < WORD
    requires j == i + 1 + |Num(s.flags, w)| && i + |WriteSym(s, w)| <= end && At(m, i + 1, WriteSymRest(s, w))
    ensures SymbolRest(m, j, end, strict, st, Start(s, i)) == Expected(s, w, i, st)
  {
    hide Name, U64, Num, At;
    AtSplit(m, i + 1, Num(s.flags, w), Num(s.index, w));
    ReadWord(m, j, end, s.index, w);
  }

  /** What follows the flags. */
  lemma ReadSymTail(m: Bytes, i: nat, j: nat, end: nat, strict: bool, s: Sym, w: nat, st: State)
    requires SymOk(s) && end <= |m| < WORD && j == i + 1 + |Num(s.flags, w)| && i + |WriteSym(s, w)| <= end
    requires At(m, i + 1, WriteSymRest(s, w))
    ensures SymbolRest(m, j, end, strict, st, Start(s, i)) == Expected(s, w, i, st)
  {
    match s
    case DataSym(_, _, _, _, _) => TailData(m, i, j, end, strict, s, w, st);
    case SectionSym(_, _) => TailSection(m, i, j, end, strict, s, w, st);
    case UnknownSym(_, _) =>
    case _ => TailNamed(m, i, j, end, strict, s, w, st);
  }

  lemma ReadSym(m: Bytes, i: nat, end: nat, strict: bool, s: Sym, w: nat, st: State)
    requires SymOk(s) && At(m, i, WriteSym(s, w)) && i + |WriteSym(s, w)| <= end <= |m| < WORD
    ensures OneSymbol(m, i, end, strict, st) == Expected(s, w, i, st)
  {
    hide SymbolRest;
    AtFirst(m, i, KindOf(s), WriteSymRest(s, w));
    FlagsFirst(m, i + 1, s, w);
    ReadWord(m, i + 1, end, s.flags, w);
    ReadSymTail(m, i, i + 1 + |Num(s.flags, w)|, end, strict, s, w, st);
  }

  /** Whatever the symbol, its flags come first. */
  lemma FlagsFirst(m: Bytes, i: nat, s: Sym, w: nat)
    requires At(m, i, WriteSymRest(s, w))
    ensures At(m, i, Num(s.flags, w)) && |Num(s.flags, w)| <= |WriteSymRest(s, w)|
  {
    hide Num;
    match s
    case FuncSym(flags, index, name) =>
      AtSplit(m, i, Num(flags, w), Num(index, w) + if WritesName(flags) then Text(name, w) else []);
    case DataSym(flags, name, segment, offset, size) =>
      AtSplit(m, i, Num(flags, w), Text(name, w) + if IsUndefined(flags) then [] else WritePlace(s, w));
    case SectionSym(flags, index) => AtSplit(m, i, Num(flags, w), Num(index, w));
    case IndexSym(_, flags, index, name) =>
      AtSplit(m, i, Num(flags, w), Num(index, w) + if WritesName(flags) then Text(name, w) else []);
    case UnknownSym(_, _) =>
  }

  // ---- symbol tables ----

  /** The result the reader is to give, at i, of sections that mean r. */
  function Reads(r: Meaning, i: nat): Parse<State> {
    match r case Means(st) => Ok(st, i) case Fails(why) => Fail(why)
  }

  lemma {:induction false} ReadSyms(m: Bytes, i: nat, end: nat, strict: bool, ss: seq<Sym>, w: nat, st: State)
    requires At(m, i, WriteSyms(ss, w)) && i + |WriteSyms(ss, w)| <= end <= |m| < WORD && SymsOk(ss)
    ensures SymbolLoop(m, i, end, strict, |ss|, st) == Reads(SymsMean(ss, w, i, st), i + |WriteSyms(ss, w)|)
    decreases |ss|
  {
    hide OneSymbol, At, WriteSym, SymOk, IndexOk, TypeOk, SymbolOf;
    if ss != [] {
      AtSplit(m, i, WriteSym(ss[0], w), WriteSyms(ss[1..], w));
      ReadSym(m, i, end, strict, ss[0], w, st);
      if !ss[0].UnknownSym? && IndexOk(ss[0], st) && TypeOk(ss[0], st) {
        var st' := st.(syms := st.syms + [SymbolOf(ss[0], i, st)]);
        ReadSyms(m, i + |WriteSym(ss[0], w)|, end, strict, ss[1..], w, st');
      }
    }
  }

  lemma {:induction false} SymsTakeRoom(ss: seq<Sym>, w: nat)
    ensures |ss| <= |WriteSyms(ss, w)|
  {
    if ss != [] {
      SymsTakeRoom(ss[1..], w);
    }
  }

  // ---- the linking section ----

  /** A part of the file written with its size before it, as sections and subsections are. */
  lemma ReadSized(m: Bytes, i: nat, end: nat, id: Byte, body: Bytes, w: nat)
    requires At(m, i, [id] + Text(body, w)) && i + 1 + |Text(body, w)| <= end <= |m| < WORD
    ensures var k := i + 1 + |Num(|body|, w)|;
            && i < end && m[i] == id && U64(m, i + 1, end) == Ok(|body|, k) && At(m, k, body)
            && k + |body| == i + 1 + |Text(body, w)|
  {
    hide At, Num, U64;
    AtFirst(m, i, id, Text(body, w));
    AtSplit(m, i + 1, Num(|body|, w), body);
    ReadWord(m, i + 1, end, |body|, w);
  }

  lemma ReadTable(m: Bytes, k: nat, end: nat, strict: bool, syms: seq<Sym>, w: nat, st: State)
    requires At(m, k, SubBody(SymTab(syms), w)) && k + |SubBody(SymTab(syms), w)| == end <= |m| < WORD && SymsOk(syms)
    ensures SymbolTable(m, k, end, strict, st) == Reads(SymsMean(syms, w, end - |WriteSyms(syms, w)|, st), end)
  {
    hide At, Num, U64, SymbolLoop, SymsMean, WriteSyms;
    AtSplit(m, k, Num(|syms|, w), WriteSyms(syms, w));
    SymsTakeRoom(syms, w);
    ReadWord(m, k, end, |syms|, w);
    ReadSyms(m, k + |Num(|syms|, w)|, end, strict, syms, w, st);
  }

  lemma ReadSub(m: Bytes, i: nat, end: nat, strict: bool, s: Sub, w: nat, st: State)
    requires At(m, i, WriteSub(s, w)) && i + |WriteSub(s, w)| <= end <= |m| < WORD && SubOk(s)
    ensures var next := i + |WriteSub(s, w)|;
            Subsection(m, i, end, strict, st) ==
            if s.OtherSub? then Ok(st, next) else Reads(SymsMean(s.syms, w, next - |WriteSyms(s.syms, w)|, st), next)
  {
    hide At, Num, U64, SymbolTable, SubBody, SymsMean, WriteSyms;
    var body := SubBody(s, w);
    ReadSized(m, i, end, SubId(s), body, w);
    if s.SymTab? {
      TableFits(s.syms, w);
      ReadTable(m, i + 1 + |Num(|body|, w)|, i + |WriteSub(s, w)|, strict, s.syms, w, st);
    }
  }

  lemma TableFits(syms: seq<Sym>, w: nat)
    ensures |WriteSyms(syms, w)| < |SubBody(SymTab(syms), w)|
  {
    assert |Num(|syms|, w)| > 0;
  }

  lemma {:induction false} ReadSubs(m: Bytes, i: nat, end: nat, strict: bool, ss: seq<Sub>, w: nat, st: State)
    requires At(m, i, WriteSubs(ss, w)) && i + |WriteSubs(ss, w)| == end <= |m| < WORD && SubsOk(ss)
    ensures LinkingLoop(m, i, end, strict, st) == Reads(SubsMean(ss, w, i, st), end)
    decreases |ss|
  {
    hide At, Num, Subsection, SubOk, SymsMean, WriteSyms, SubBody;
    if ss != [] {
      AtSplit(m, i, WriteSub(ss[0], w), WriteSubs(ss[1..], w));
      ReadSub(m, i, end, strict, ss[0], w, st);
      var next := i + |WriteSub(ss[0], w)|;
      match ss[0]
      case OtherSub(_, _) => ReadSubs(m, next, end, strict, ss[1..], w, st);
      case SymTab(syms) =>
        TableFits(syms, w);
        var r := SymsMean(syms, w, next - |WriteSyms(syms, w)|, st);
        if r.Means? {
          ReadSubs(m, next, end, strict, ss[1..], w, r.st);
        }
    }
  }

  lemma ReadLinking(m: Bytes, k: nat, end: nat, strict: bool, version: nat, subs: seq<Sub>, w: nat, st: State)
    requires At(m, k, SecBody(Linking(version, subs), w)) && k + |SecBody(Linking(version, subs), w)| == end
    requires end <= |m| < WORD && SubsOk(subs)
    ensures CustomSection(m, k, end, strict, st) ==
            Reads(SubsMean(subs, w, end - |WriteSubs(subs, w)|, st.(found := true)), end)
  {
    hide At, Num, Text, Name, Uleb, LinkingLoop, SubsMean, WriteSubs;
    var j := k + |Text(LINKING_NAME, w)|;
    AtSplit(m, k, Text(LINKING_NAME, w), Num(version, w) + WriteSubs(subs, w));
    AtSplit(m, j, Num(version, w), WriteSubs(subs, w));
    ReadText(m, k, end, strict, LINKING_NAME, w);
    ReadNum(m, j, end, version, w);
    ReadSubs(m, j + |Num(version, w)|, end, strict, subs, w, st.(found := true));
  }

  lemma ReadCustom(m: Bytes, k: nat, end: nat, strict: bool, name: Bytes, bytes: Bytes, w: nat, st: State)
    requires At(m, k, SecBody(Custom(name, bytes), w)) && k + |SecBody(Custom(name, bytes), w)| == end <= |m| < WORD
    requires name != LINKING_NAME
    ensures var r := CustomSection(m, k, end, strict, st); r.Ok? && r.value == st
  {
    hide At, Text, Name, LinkingLoop;
    AtSplit(m, k, Text(name, w), bytes);
    ReadText(m, k, end, strict, name, w);
  }

  // ---- sections ----

  lemma {:induction false} ItemsTakeRoom(ts: seq<TypeDef>, imps: seq<Imported>, fs: seq<nat>, w: nat)
    ensures |ts| <= |WriteTypes(ts, w)| && |imps| <= |WriteImports(imps, w)| && |fs| <= |WriteFuncs(fs, w)|
    decreases |ts| + |imps| + |fs|
  {
    if ts != [] {
      ItemsTakeRoom(ts[1..], imps, fs, w);
    } else if imps != [] {
      ItemsTakeRoom(ts, imps[1..], fs, w);
    } else if fs != [] {
      ItemsTakeRoom(ts, imps, fs[1..], w);
    }
  }

  lemma ReadCounted(m: Bytes, k: nat, end: nat, strict: bool, s: Sec, w: nat, st: State)
    requires SecOk(s) && (s.Types? || s.Imports? || s.Funcs?)
    requires At(m, k, SecBody(s, w)) && k + |SecBody(s, w)| == end <= |m| < WORD
    ensures CountedSection(m, SecId(s), k, end, strict, st) == Reads(SecMeans(s, w, 0, st), end)
  {
    hide At, Num, U64, TypeLoop, ImportLoop, FuncLoop, WriteTypes, WriteImports, WriteFuncs;
    hide TypesOk, ImportsOk, FuncsOk, AllFunctions, Sigs, FuncsIn, Low32;
    match s
    case Types(types) =>
      ItemsTakeRoom(types, [], [], w);
      AtSplit(m, k, Num(|types|, w), WriteTypes(types, w));
      ReadWord(m, k, end, |types|, w);
      ReadTypes(m, k + |Num(|types|, w)|, end, strict, types, w, st.types);
    case Imports(imports) =>
      ItemsTakeRoom([], imports, [], w);
      AtSplit(m, k, Num(|imports|, w), WriteImports(imports, w));
      ReadWord(m, k, end, |imports|, w);
      ReadImports(m, k + |Num(|imports|, w)|, end, strict, imports, w, st.imported);
    case Funcs(funcs) =>
      ItemsTakeRoom([], [], funcs, w);
      AtSplit(m, k, Num(|funcs|, w), WriteFuncs(funcs, w));
      ReadWord(m, k, end, |funcs|, w);
      ReadFuncs(m, k + |Num(|funcs|, w)|, end, funcs, w, st.funcs);
  }

  lemma ReadContents(m: Bytes, i: nat, k: nat, end: nat, strict: bool, s: Sec, w: nat, st: State)
    requires SecOk(s) && At(m, k, SecBody(s, w)) && k + |SecBody(s, w)| == end == i + |WriteSec(s, w)| <= |m| < WORD
    ensures var r := Contents(m, SecId(s), k, end, strict, st);
            match SecMeans(s, w, i, st)
            case Means(st') => r.Ok? && r.value == st'
            case Fails(why) => r == Fail(why)
  {
    hide At, CountedSection, CustomSection, WriteSec, SecBody, WriteSubs, SubsMean, AllFunctions, Sigs, FuncsIn, Low32;
    match s
    case Linking(version, subs) => ReadLinking(m, k, end, strict, version, subs, w, st);
    case Custom(name, bytes) => ReadCustom(m, k, end, strict, name, bytes, w, st);
    case OtherSec(_, _) =>
    case _ => ReadCounted(m, k, end, strict, s, w, st);
  }

  lemma ReadSec(m: Bytes, i: nat, end: nat, strict: bool, s: Sec, w: nat, st: State)
    requires SecOk(s) && At(m, i, WriteSec(s, w)) && i + |WriteSec(s, w)| <= end <= |m| < WORD
    ensures Section(m, i, end, strict, st) == Reads(SecMeans(s, w, i, st), i + |WriteSec(s, w)|)
  {
    hide At, Num, U64, Contents, SecBody, SecMeans, SecOk;
    var body := SecBody(s, w);
    ReadSized(m, i, end, SecId(s), body, w);
    ReadContents(m, i, i + 1 + |Num(|body|, w)|, i + |WriteSec(s, w)|, strict, s, w, st);
  }

  lemma {:induction false} ReadSecs(m: Bytes, i: nat, end: nat, strict: bool, ss: seq<Sec>, w: nat, st: State)
    requires At(m, i, WriteSecs(ss, w)) && i + |WriteSecs(ss, w)| == end <= |m| < WORD && SecsOk(ss)
    ensures SectionLoop(m, i, end, strict, st) == Reads(SecsMean(ss, w, i, st), end)
    decreases |ss|
  {
    hide At, Section, SecOk, SecMeans, SecBody, Text;
    if ss != [] {
      AtSplit(m, i, WriteSec(ss[0], w), WriteSecs(ss[1..], w));
      ReadSec(m, i, end, strict, ss[0], w, st);
      var r := SecMeans(ss[0], w, i, st);
      if r.Means? {
        ReadSecs(m, i + |WriteSec(ss[0], w)|, end, strict, ss[1..], w, r.st);
      }
    }
  }

  // ---- the whole file ----

  /**
   The symbols read from an object that was written are those the object means, or the reader fails as it
   means; whatever lies after the object in the buffer, and whichever way slices are bounded.
   */
  lemma RoundTrip(m: Bytes, ss: seq<Sec>, w: nat, strict: bool)
    requires At(m, 0, WriteObject(ss, w)) && |m| < WORD && SecsOk(ss)
    ensures var len := |WriteObject(ss, w)|;
            Symbols(m, len, strict) ==
            match SecsMean(ss, w, 8, EMPTY)
            case Means(st) => if st.found then Ok(st.syms, len) else Fail(Error)
            case Fails(why) => Fail(why)
  {
    hide SectionLoop, SecsMean, WriteSecs, SecsOk;
    AtSplit(m, 0, HEADER, WriteSecs(ss, w));
    assert m[..8] == m[0..8] == HEADER;
    ReadSecs(m, 8, |WriteObject(ss, w)|, strict, ss, w, EMPTY);
  }

  // ---- the symbols of an object, one by one ----

  /** The symbol is of a kind there is, and the function it defines, if any, is there and has a type. */
  predicate Resolves(s: Sym, types: nat, imported: nat, funcs: seq<nat>) {
    && !s.UnknownSym?
    && (s.FuncSym? && !IsUndefined(s.flags) ==>
          imported <= s.index < imported + |funcs| && funcs[s.index - imported] < types)
  }

  predicate AllResolve(ss: seq<Sym>, types: nat, imported: nat, funcs: seq<nat>) {
    forall t :: 0 <= t < |ss| ==> Resolves(ss[t], types, imported, funcs)
  }

  /** Where symbol t of a table that is written from i on is written. */
  function SymAt(ss: seq<Sym>, w: nat, i: nat, t: nat): nat
    requires t < |ss|
  {
    if t == 0 then i else SymAt(ss[1..], w, i + |WriteSym(ss[0], w)|, t - 1)
  }

  /** y is what the reader is to give of s, written at i: the flags lie after the kind. */
  predicate Tells(y: Symbol, s: Sym, i: nat, st: State) {
    && y.kind == KindOf(s) && y.flags == s.flags && y.offset == i + 1
    && y.name == (if s.SectionSym? || s.UnknownSym? then [] else s.name)
    && (if s.FuncSym? && !IsUndefined(s.flags)
        then Resolves(s, |st.types|, st.imported, st.funcs)
             && y.func == Sig(st.types[st.funcs[s.index - st.imported]])
        else y.func == NoSig)
  }

  /** A table is read if and only if all its symbols resolve, and then gives one symbol for each. */
  lemma {:induction false} TableReads(ss: seq<Sym>, w: nat, i: nat, st: State)
    ensures var r := SymsMean(ss, w, i, st);
            && (r.Means? <==> AllResolve(ss, |st.types|, st.imported, st.funcs))
            && (r.Means? ==> |r.st.syms| == |st.syms| + |ss| && r.st == st.(syms := r.st.syms) && st.syms <= r.st.syms)
    decreases |ss|
  {
    hide WriteSym, SymbolOf;
    if ss != [] && Resolves(ss[0], |st.types|, st.imported, st.funcs) {
      TableReads(ss[1..], w, i + |WriteSym(ss[0], w)|, st.(syms := st.syms + [SymbolOf(ss[0], i, st)]));
    }
  }

  /** The symbols are given in the order in which they are written. */
  lemma {:induction false} TableGives(ss: seq<Sym>, w: nat, i: nat, st: State, t: nat)
    requires SymsMean(ss, w, i, st).Means? && t < |ss|
    ensures var syms := SymsMean(ss, w, i, st).st.syms;
            |syms| == |st.syms| + |ss| && Tells(syms[|st.syms| + t], ss[t], SymAt(ss, w, i, t), st)
    decreases |ss|
  {
    hide WriteSym;
    var st' := st.(syms := st.syms + [SymbolOf(ss[0], i, st)]);
    TableReads(ss, w, i, st);
    TableReads(ss[1..], w, i + |WriteSym(ss[0], w)|, st');
    if t > 0 {
      TableGives(ss[1..], w, i + |WriteSym(ss[0], w)|, st', t - 1);
    }
  }

  lemma {:induction false} SigsAt(ts: seq<TypeDef>, t: nat)
    requires AllFunctions(ts) && t < |ts|
    ensures |Sigs(ts)| == |ts| && ts[t].Function? && Sigs(ts)[t] == FuncSig(ts[t].params, ts[t].results)
  {
    if |ts| > 1 {
      SigsAt(ts[1..], if t == 0 then 0 else t - 1);
    }
  }

  /** An object with a symbol table: its types, imports, functions and symbols. */
  function Object(types: seq<TypeDef>, imports: seq<Imported>, funcs: seq<nat>, syms: seq<Sym>): seq<Sec> {
    [Types(types)] + ([Imports(imports)] + ([Funcs(funcs)] + ([Linking(2, [SymTab(syms)])] + [])))
  }

  lemma OneMore(s: Sec, ss: seq<Sec>, w: nat, i: nat, st: State)
    ensures WriteSecs([s] + ss, w) == WriteSec(s, w) + WriteSecs(ss, w)
    ensures SecsOk([s] + ss) <==> SecOk(s) && SecsOk(ss)
    ensures SecMeans(s, w, i, st).Means? ==>
              SecsMean([s] + ss, w, i, st) == SecsMean(ss, w, i + |WriteSec(s, w)|, SecMeans(s, w, i, st).st)
    ensures SecMeans(s, w, i, st).Fails? ==> SecsMean([s] + ss, w, i, st) == SecMeans(s, w, i, st)
  {
    assert ([s] + ss)[1..] == ss;
  }

  /** The last section of an object holds its symbol table, and the table ends with it. */
  lemma LastSection(syms: seq<Sym>, w: nat, i: nat, st: State)
    ensures var s := Linking(2, [SymTab(syms)]);
            && |WriteSyms(syms, w)| <= |WriteSec(s, w)|
            && SecsMean([s] + [], w, i, st) ==
               SymsMean(syms, w, i + |WriteSec(s, w)| - |WriteSyms(syms, w)|, st.(found := true))
  {
    hide SymsMean, WriteSyms, Num, WriteSec, WriteSub;
    var s := Linking(2, [SymTab(syms)]);
    OneMore(s, [], w, i, st);
    TableLast(syms, w);
    OneTable(syms, w, i + |WriteSec(s, w)| - |WriteSub(SymTab(syms), w)|, st.(found := true));
  }

  /** Where a table is the only one, it ends with the section. */
  lemma TableLast(syms: seq<Sym>, w: nat)
    ensures var table := SymTab(syms);
            && WriteSubs([table], w) == WriteSub(table, w)
            && |WriteSyms(syms, w)| <= |WriteSub(table, w)| <= |WriteSec(Linking(2, [table]), w)|
  {
    hide WriteSyms, Num;
    assert [SymTab(syms)][1..] == [];
  }

  lemma OneTable(syms: seq<Sym>, w: nat, i: nat, st: State)
    ensures var next := i + |WriteSub(SymTab(syms), w)|;
            && |WriteSyms(syms, w)| <= next
            && SubsMean([SymTab(syms)], w, i, st) == SymsMean(syms, w, next - |WriteSyms(syms, w)|, st)
  {
    hide SymsMean, WriteSyms, Num;
    TableLast(syms, w);
    assert [SymTab(syms)][1..] == [];
  }

  lemma ObjectMeans(types: seq<TypeDef>, imports: seq<Imported>, funcs: seq<nat>, syms: seq<Sym>, w: nat)
    requires AllFunctions(types)
    ensures var o := Object(types, imports, funcs, syms);
            var st := State(Sigs(types), FuncsIn(imports), Low32(funcs), [], true);
            && |WriteSyms(syms, w)| <= |WriteObject(o, w)|
            && SecsMean(o, w, 8, EMPTY) == SymsMean(syms, w, |WriteObject(o, w)| - |WriteSyms(syms, w)|, st)
  {
    hide AllFunctions, Sigs, FuncsIn, Low32, WriteSec, WriteSecs, WriteSyms, SymsMean, SecsMean, SecOk, SecsOk;
    var linking := [Linking(2, [SymTab(syms)])] + [];
    var more := [Funcs(funcs)] + linking;
    var i := 8 + |WriteSec(Types(types), w)|;
    var j := i + |WriteSec(Imports(imports), w)|;
    var st1 := EMPTY.(types := EMPTY.types + Sigs(types));
    var st2 := st1.(imported := st1.imported + FuncsIn(imports));
    OneMore(Types(types), [Imports(imports)] + more, w, 8, EMPTY);
    OneMore(Imports(imports), more, w, i, st1);
    OneMore(Funcs(funcs), linking, w, j, st2);
    var st3 := st2.(funcs := st2.funcs + Low32(funcs));
    LastSection(syms, w, j + |WriteSec(Funcs(funcs), w)|, st3);
    OneMore(Linking(2, [SymTab(syms)]), [], w, 0, EMPTY);
    assert WriteSecs([], w) == [] by { NoSecs(w); }
    assert st3 == State(Sigs(types), FuncsIn(imports), Low32(funcs), [], false);
  }

  lemma NoSecs(w: nat)
    ensures WriteSecs([], w) == [] && SecsOk([])
  {
  }

  lemma OneTableOk(syms: seq<Sym>)
    ensures SubsOk([SymTab(syms)]) <==> SymsOk(syms)
  {
    hide SymsOk;
    assert [SymTab(syms)][1..] == [];
  }

  lemma ObjectOk(types: seq<TypeDef>, imports: seq<Imported>, funcs: seq<nat>, syms: seq<Sym>)
    ensures SecsOk(Object(types, imports, funcs, syms)) <==>
            TypesOk(types) && ImportsOk(imports) && FuncsOk(funcs) && SymsOk(syms)
  {
    hide TypesOk, ImportsOk, FuncsOk, SubsOk, SymsOk, SecMeans, SecsMean, WriteSec, WriteSecs, SecsOk;
    var linking := [Linking(2, [SymTab(syms)])] + [];
    var more := [Funcs(funcs)] + linking;
    OneMore(Types(types), [Imports(imports)] + more, 0, 0, EMPTY);
    OneMore(Imports(imports), more, 0, 0, EMPTY);
    OneMore(Funcs(funcs), linking, 0, 0, EMPTY);
    OneMore(Linking(2, [SymTab(syms)]), [], 0, 0, EMPTY);
    OneTableOk(syms);
    NoSecs(0);
  }

  /**
   Reading an object succeeds if and only if all its symbols resolve. It then gives one symbol for each, in
   order: of the same kind and flags, with the name that is written, with the offset at which its flags are
   written, and with the signature of the function it defines, which its index names after the imported ones.
   */
  lemma ObjectSymbols(m: Bytes, types: seq<TypeDef>, imports: seq<Imported>, funcs: seq<nat>, syms: seq<Sym>,
                      w: nat, strict: bool)
    requires TypesOk(types) && ImportsOk(imports) && FuncsOk(funcs) && SymsOk(syms) && AllFunctions(types)
    requires At(m, 0, WriteObject(Object(types, imports, funcs, syms), w)) && |m| < WORD
    ensures var len := |WriteObject(Object(types, imports, funcs, syms), w)|;
            var r := Symbols(m, len, strict);
            var st := State(Sigs(types), FuncsIn(imports), Low32(funcs), [], true);
            && len >= |WriteSyms(syms, w)|
            && (r.Ok? <==> AllResolve(syms, |types|, FuncsIn(imports), Low32(funcs)))
            && (r.Ok? ==>
                  && |r.value| == |syms| && r.i == len
                  && forall t: nat :: t < |syms| ==>
                       Tells(r.value[t], syms[t], SymAt(syms, w, len - |WriteSyms(syms, w)|, t), st))
  {
    hide *;
    var o := Object(types, imports, funcs, syms);
    var st := State(Sigs(types), FuncsIn(imports), Low32(funcs), [], true);
    ObjectOk(types, imports, funcs, syms);
    RoundTrip(m, o, w, strict);
    ObjectMeans(types, imports, funcs, syms, w);
    var i := |WriteObject(o, w)| - |WriteSyms(syms, w)|;
    TableReads(syms, w, i, st);
    assert |Sigs(types)| == |types| by {
      if types == [] { NoSigs(); } else { SigsAt(types, 0); }
    }
    if SymsMean(syms, w, i, st).Means? {
      forall t: nat | t < |syms|
        ensures Tells(SymsMean(syms, w, i, st).st.syms[t], syms[t], SymAt(syms, w, i, t), st)
      {
        TableGives(syms, w, i, st, t);
      }
    }
  }

  lemma NoSigs()
    ensures Sigs([]) == []
  {
  }
}
