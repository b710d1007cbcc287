/** The reader as the object with a cursor it is, the nested loops of Symbols, and the in-place patch. */
module WasmTool {
  import opened WasmObj
  import opened WasmLocalize
  import opened WasmReadOnce

  /** A reader of the bytes of m before end; positions are offsets in the file. */
  class Reader {
    const m: Bytes
    const end: nat
    var i: nat

    ghost predicate Valid() {
      end <= |m|
    }

    constructor (m: Bytes, i: nat, end: nat)
      requires end <= |m|
      ensures Valid() && this.m == m && this.i == i && this.end == end
    {
      this.m, this.i, this.end := m, i, end;
    }

    method ReadByte() returns (r: Parse<Byte>)
      requires Valid()
      modifies this
      ensures r == ByteAt(m, old(i), end) && (r.Ok? ==> i == r.i)
    {
      if i >= end {
        return Fail(Panic);
      }
      i := i + 1;
      return Ok(m[i - 1], i);
    }

    /** uleb: the parts lie in different bits, so the code's or is a sum. */
    method ReadUleb() returns (r: Parse<nat>)
      requires Valid()
      modifies this
      ensures r == U64(m, old(i), end) && (r.Ok? ==> i == r.i)
    {
      var v, scale := 0, 1;
      ghost var whole := Uleb(m, i, end);
      while true
        invariant match Uleb(m, i, end)
                  case Ok(x, j) => whole == Ok(v + scale * x, j)
                  case Fail(why) => whole == Fail(why)
        decreases end - i
      {
        if i >= end {
          return Fail(Panic);
        }
        var c := m[i];
        ghost var rest := Uleb(m, i + 1, end);
        i := i + 1;
        if c < 128 {
          v := v + scale * c;
          return Ok(Cut64(v), i);
        }
        if rest.Ok? {
          Digits(v, scale, c - 128, rest.value);
        }
        v := v + scale * (c - 128);
        scale := scale * 128;
      }
    }

    method ReadName() returns (r: Parse<Bytes>)
      requires Valid()
      modifies this
      ensures r == Name(m, old(i), end, false) && (r.Ok? ==> i == r.i)
    {
      var n := ReadUleb();
      if n.Fail? {
        return Fail(n.why);
      }
      if i + n.value > |m| {
        return Fail(Panic);
      }
      r := Ok(m[i..i + n.value], i + n.value);
      i := i + n.value;
    }

    /** The loop over the type section. */
    method ReadTypes(n: nat, types: seq<FuncSig>) returns (r: Parse<seq<FuncSig>>)
      requires Valid()
      modifies this
      ensures r == TypeLoop(m, old(i), end, false, n, types)
    {
      hide Name;
      var acc, k := types, n;
      while k > 0
        invariant TypeLoop(m, old(i), end, false, n, types) == TypeLoop(m, i, end, false, k, acc)
      {
        var form := ReadByte();
        if form.Fail? {
          return Fail(form.why);
        }
        if form.value != 0x60 {
          return Fail(Error);
        }
        var params := ReadName();
        if params.Fail? {
          return Fail(params.why);
        }
        var results := ReadName();
        if results.Fail? {
          return Fail(results.why);
        }
        acc, k := acc + [FuncSig(params.value, results.value)], k - 1;
      }
      return Ok(acc, i);
    }

    /** limits. */
    method ReadLimits() returns (r: Parse<()>)
      requires Valid()
      modifies this
      ensures r == Limits(m, old(i), end) && (r.Ok? ==> i == r.i)
    {
      hide Uleb;
      var flags := ReadByte();
      if flags.Fail? {
        return Fail(flags.why);
      }
      var low := ReadUleb();
      if low.Fail? {
        return Fail(low.why);
      }
      if flags.value % 2 == 1 {
        var high := ReadUleb();
        if high.Fail? {
          return Fail(high.why);
        }
      }
      return Ok((), i);
    }

    /** A value that is read and not used. */
    method Skip(f: Field) returns (r: Parse<()>)
      requires Valid()
      modifies this
      ensures r == OneField(m, old(i), end, f) && (r.Ok? ==> i == r.i)
    {
      hide Uleb;
      match f
      case FByte =>
        var c := ReadByte();
        r := if c.Fail? then Fail(c.why) else Ok((), i);
      case FUleb =>
        var n := ReadUleb();
        r := if n.Fail? then Fail(n.why) else Ok((), i);
      case FLimits => r := ReadLimits();
    }

    method SkipAll(fs: seq<Field>) returns (r: Parse<()>)
      requires Valid()
      modifies this
      ensures r == Fields(m, old(i), end, fs) && (r.Ok? ==> i == r.i)
    {
      hide OneField;
      assert fs[0..] == fs;
      for k := 0 to |fs|
        invariant Fields(m, old(i), end, fs) == Fields(m, i, end, fs[k..])
      {
        var x := Skip(fs[k]);
        assert fs[k..][1..] == fs[k + 1..];
        if x.Fail? {
          return Fail(x.why);
        }
      }
      return Ok((), i);
    }

    /** One import: two names, its kind, and what comes with that kind. */
    method ReadImport() returns (r: Parse<Byte>)
      requires Valid()
      modifies this
      ensures r == Import(m, old(i), end, false) && (r.Ok? ==> i == r.i)
    {
      hide Name, Fields;
      var mod := ReadName();
      if mod.Fail? {
        return Fail(mod.why);
      }
      var name := ReadName();
      if name.Fail? {
        return Fail(name.why);
      }
      var kind := ReadByte();
      if kind.Fail? {
        return Fail(kind.why);
      }
      var rest := SkipAll(ImportFields(kind.value));
      if rest.Fail? {
        return Fail(rest.why);
      }
      return Ok(kind.value, i);
    }

    /** The loop over the import section, which counts functions. */
    method ReadImports(n: nat, funcs: nat) returns (r: Parse<nat>)
      requires Valid()
      modifies this
      ensures r == ImportLoop(m, old(i), end, false, n, funcs)
    {
      hide Import;
      var count, k := funcs, n;
      while k > 0
        invariant ImportLoop(m, old(i), end, false, n, funcs) == ImportLoop(m, i, end, false, k, count)
      {
        var kind := ReadImport();
        if kind.Fail? {
          return Fail(kind.why);
        }
        count, k := if kind.value == 0 then count + 1 else count, k - 1;
      }
      return Ok(count, i);
    }

    /** The loop over the function section. */
    method ReadFuncs(n: nat, funcs: seq<nat>) returns (r: Parse<seq<nat>>)
      requires Valid()
      modifies this
      ensures r == FuncLoop(m, old(i), end, n, funcs)
    {
      hide U64;
      var acc, k := funcs, n;
      while k > 0
        invariant FuncLoop(m, old(i), end, n, funcs) == FuncLoop(m, i, end, k, acc)
      {
        var t := ReadUleb();
        if t.Fail? {
          return Fail(t.why);
        }
        acc, k := acc + [t.value % 0x1_0000_0000], k - 1;
      }
      return Ok(acc, i);
    }

    /** What follows the flags of a symbol, by its kind. */
    method ReadRest(st: State, s: Symbol) returns (r: Parse<Symbol>)
      requires Valid()
      modifies this
      ensures r == SymbolRest(m, old(i), end, false, st, s) && (r.Ok? ==> i == r.i)
    {
      hide Name, U64, Fields, SigOf;
      if s.kind > KIND_TABLE {
        return Fail(Error);
      }
      var idx := 0;
      if s.kind != KIND_DATA {
        var x := ReadUleb();
        if x.Fail? {
          return Fail(x.why);
        }
        idx := x.value;
      }
      var name: Bytes := [];
      if s.kind == KIND_DATA || (s.kind != KIND_SECTION && s.Named()) {
        var x := ReadName();
        if x.Fail? {
          return Fail(x.why);
        }
        name := x.value;
      }
      var place := SkipAll(if s.kind == KIND_DATA && s.Defined() then [FUleb, FUleb, FUleb] else []);
      if place.Fail? {
        return Fail(place.why);
      }
      var func: Parse<OptSig> := if s.kind == KIND_FUNCTION && s.Defined() then SigOf(st, idx) else Ok(NoSig, 0);
      if func.Fail? {
        return Fail(func.why);
      }
      return Ok(s.(name := name, func := func.value), i);
    }

    /** The loop over the symbol table. */
    method ReadSymbols(n: nat, st: State) returns (r: Parse<State>)
      requires Valid()
      modifies this
      ensures r == SymbolLoop(m, old(i), end, false, n, st)
    {
      hide SymbolRest, Uleb;
      var st', k := st, n;
      while k > 0
        invariant SymbolLoop(m, old(i), end, false, n, st) == SymbolLoop(m, i, end, false, k, st')
      {
        var kind := ReadByte();
        if kind.Fail? {
          return Fail(kind.why);
        }
        var offset := i;
        var flags := ReadUleb();
        if flags.Fail? {
          return Fail(flags.why);
        }
        var s := ReadRest(st', Symbol(kind.value, flags.value, offset, [], NoSig));
        if s.Fail? {
          return Fail(s.why);
        }
        st', k := st'.(syms := st'.syms + [s.value]), k - 1;
      }
      return Ok(st', i);
    }

    /** The loop over the subsections of the linking section. */
    method ReadLinking(st: State) returns (r: Parse<State>)
      requires Valid()
      modifies this
      ensures r == LinkingLoop(m, old(i), end, false, st)
    {
      hide SymbolLoop, Uleb;
      var st' := st;
      while i < end
        invariant LinkingLoop(m, old(i), end, false, st) == LinkingLoop(m, i, end, false, st')
        decreases end - i
      {
        ghost var i0 := i;
        var id := ReadByte();
        var size := ReadUleb();
        if size.Fail? {
          return Fail(size.why);
        }
        if i + size.value > |m| {
          return Fail(Panic);
        }
        var sub := new Reader(m, i, i + size.value);
        i := i + size.value;
        if id.value == 8 {
          var n := sub.ReadUleb();
          if n.Fail? {
            return Fail(n.why);
          }
          var syms := sub.ReadSymbols(n.value, st');
          if syms.Fail? {
            return Fail(syms.why);
          }
          st' := syms.value;
        }
        assert i0 < i;
      }
      return Ok(st', i);
    }
  }

  /** The first digit, and the others at 128 times their value. */
  lemma Digits(v: int, scale: int, c: int, x: int)
    ensures v + scale * (c + 128 * x) == (v + scale * c) + (scale * 128) * x
  {
  }

  /** The contents of a section, by its id. */
  method ReadContents(sec: Reader, id: Byte, st: State) returns (r: Parse<State>)
    requires sec.Valid()
    modifies sec
    ensures var c := Contents(sec.m, id, old(sec.i), sec.end, false, st);
            if c.Ok? then r.Ok? && r.value == c.value else r == c
  {
    hide Uleb, LinkingLoop, TypeLoop, ImportLoop, FuncLoop;
    if id == 0 {
      var name := sec.ReadName();
      if name.Fail? {
        return Fail(name.why);
      }
      if name.value != LINKING {
        return Ok(st, sec.i);
      }
      var version := sec.ReadUleb();
      if version.Fail? {
        return Fail(version.why);
      }
      r := sec.ReadLinking(st.(found := true));
    } else if id <= 3 {
      var n := sec.ReadUleb();
      if n.Fail? {
        return Fail(n.why);
      }
      if id == 1 {
        var types := sec.ReadTypes(n.value, st.types);
        return if types.Fail? then Fail(types.why) else Ok(st.(types := types.value), types.i);
      } else if id == 2 {
        var imported := sec.ReadImports(n.value, st.imported);
        return if imported.Fail? then Fail(imported.why) else Ok(st.(imported := imported.value), imported.i);
      } else {
        var funcs := sec.ReadFuncs(n.value, st.funcs);
        return if funcs.Fail? then Fail(funcs.why) else Ok(st.(funcs := funcs.value), funcs.i);
      }
    } else {
      return Ok(st, sec.i);
    }
  }

  /** One section, of which the reader is left at the end. */
  method ReadSection(rd: Reader, st: State) returns (r: Parse<State>)
    requires rd.Valid() && rd.i < rd.end
    modifies rd
    ensures r == Section(rd.m, old(rd.i), rd.end, false, st) && (r.Ok? ==> rd.i == r.i)
  {
    hide Uleb, Contents;
    var id := rd.ReadByte();
    var size := rd.ReadUleb();
    if size.Fail? {
      return Fail(size.why);
    }
    if rd.i + size.value > |rd.m| {
      return Fail(Panic);
    }
    var sec := new Reader(rd.m, rd.i, rd.i + size.value);
    var contents := ReadContents(sec, id.value, st);
    if contents.Fail? {
      return Fail(contents.why);
    }
    rd.i := rd.i + size.value;
    return Ok(contents.value, rd.i);
  }

  /** The loop over the sections, and Symbols as a whole. */
  method ReadAll(m: Bytes, len: nat) returns (r: Parse<seq<Symbol>>)
    requires len <= |m|
    ensures r == Symbols(m, len, false)
  {
    hide Section;
    if !IsModule(m, len) {
      return Fail(Error);
    }
    var rd := new Reader(m, 8, len);
    var st := EMPTY;
    while rd.i < len
      invariant rd.m == m && rd.end == len && rd.Valid()
      invariant SectionLoop(m, 8, len, false, EMPTY) == SectionLoop(m, rd.i, len, false, st)
      decreases len - rd.i
    {
      var next := ReadSection(rd, st);
      if next.Fail? {
        return Fail(next.why);
      }
      st := next.value;
    }
    return if st.found then Ok(st.syms, rd.i) else Fail(Error);
  }

  lemma SetBitTwice(x: nat)
    ensures SetBit(SetBit(x, 2), 2) == SetBit(x, 2)
  {
  }

  /** How many symbols are localized. */
  function CountSelected(syms: seq<Symbol>, keep: set<Bytes>): nat {
    if syms == [] then 0
    else CountSelected(syms[..|syms| - 1], keep) + if Selected(syms[|syms| - 1], keep) then 1 else 0
  }

  /** The patching loop of wasmlocalize over the symbols of the object in data[..len]. */
  method Localize(data: array<Byte>, len: nat, keep: set<Bytes>) returns (r: Parse<nat>)
    requires len <= data.Length
    modifies data
    ensures r.Ok? ==>
              && old(Symbols(data[..], len, false)).Ok?
              && var syms := old(Symbols(data[..], len, false)).value;
              r.value == CountSelected(syms, keep) && Patched(old(data[..]), data[..], syms, keep)
    ensures r.Ok? && old(ReadOnce(data[..], len, false, keep)) ==>
              && Symbols(data[..], len, false).Ok?
              && Symbols(data[..], len, false).value == RelabelAll(old(Symbols(data[..], len, false)).value, keep)
    ensures old(Symbols(data[..], len, true)).Ok? ==>
              && r.Ok?
              && var syms := old(Symbols(data[..], len, true)).value;
              && Symbols(data[..], len, false).Ok?
              && Symbols(data[..], len, false).value == RelabelAll(syms, keep)
  {
    hide Symbols, ReadOnce;
    ghost var m0 := data[..];
    var parsed := ReadAll(data[..], len);
    if Symbols(m0, len, true).Ok? {
      BoundsMakeNoDifference(m0, len);
      OffsetsInside(m0, len);
    }
    if parsed.Fail? {
      return Fail(parsed.why);
    }
    var syms := parsed.value;
    var localized := 0;
    var t := 0;
    while t < |syms|
      invariant 0 <= t <= |syms| && localized == CountSelected(syms[..t], keep)
      invariant Patched(m0, data[..], syms[..t], keep)
    {
      var s := syms[t];
      assert syms[..t + 1][..t] == syms[..t];
      ghost var m1 := data[..];
      if Selected(s, keep) {
        if s.offset >= len {
          return Fail(Panic);
        }
        data[s.offset] := SetBit(data[s.offset], 2);
        localized := localized + 1;
      }
      PatchOneMore(m0, m1, data[..], syms, keep, t);
      t := t + 1;
    }
    assert syms[..t] == syms;
    r := Ok(localized, 0);
    if ReadOnce(m0, len, false, keep) {
      ReadOnceCommutes(m0, data[..], len, keep, false, false);
    }
    if Symbols(m0, len, true).Ok? {
      LocalizingCommutes(m0, data[..], len, keep, false);
    }
  }

  lemma PatchOneMore(m0: Bytes, m1: Bytes, m2: Bytes, syms: seq<Symbol>, keep: set<Bytes>, t: nat)
    requires t < |syms| && Patched(m0, m1, syms[..t], keep) && |m2| == |m1|
    requires !Selected(syms[t], keep) ==> m2 == m1
    requires Selected(syms[t], keep) ==> syms[t].offset < |m1|
    requires Selected(syms[t], keep) ==> forall k :: 0 <= k < |m1| ==>
               m2[k] == if k == syms[t].offset then SetBit(m1[k], 2) else m1[k]
    ensures Patched(m0, m2, syms[..t + 1], keep)
  {
    forall k | 0 <= k < |m0|
      ensures Patches(syms[..t + 1], keep, k) <==>
              Patches(syms[..t], keep, k) || (Selected(syms[t], keep) && syms[t].offset == k)
    {
      if Patches(syms[..t], keep, k) {
        var u :| 0 <= u < t && syms[..t][u].offset == k && Selected(syms[..t][u], keep);
        assert syms[..t + 1][u] == syms[..t][u];
      }
      if Selected(syms[t], keep) && syms[t].offset == k {
        assert syms[..t + 1][t] == syms[t];
      }
      if Patches(syms[..t + 1], keep, k) {
        var u :| 0 <= u < t + 1 && syms[..t + 1][u].offset == k && Selected(syms[..t + 1][u], keep);
        if u < t { assert syms[..t][u] == syms[..t + 1][u]; }
      }
    }
    forall x: nat ensures SetBit(SetBit(x, 2), 2) == SetBit(x, 2) { SetBitTwice(x); }
  }

  lemma OffsetsInside(m: Bytes, len: nat)
    requires len <= |m| && Symbols(m, len, true).Ok?
    ensures forall t :: 0 <= t < |Symbols(m, len, true).value| ==> Symbols(m, len, true).value[t].offset < len
  {
    SectionLoopGrows(m, 8, len, EMPTY);
  }
}
