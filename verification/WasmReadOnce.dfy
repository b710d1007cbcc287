/**
 The law of localizing: when every byte that is patched is read once, the patched object parses to the
 same symbol table with the local flag added where it was asked for.
 */
module WasmReadOnce {
  import opened WasmObj

  /** The symbols wasmlocalize gives local binding. */
  predicate Selected(s: Symbol, keep: set<Bytes>) {
    s.Defined() && !s.Local() && s.name != [] && (s.kind == KIND_FUNCTION || s.kind == KIND_DATA) && s.name !in keep
  }

  function Relabel(s: Symbol, keep: set<Bytes>): Symbol {
    if Selected(s, keep) then s.(flags := SetBit(s.flags, FLAG_LOCAL)) else s
  }

  function RelabelAll(syms: seq<Symbol>, keep: set<Bytes>): (r: seq<Symbol>)
    ensures |r| == |syms| && forall t :: 0 <= t < |r| ==> r[t] == Relabel(syms[t], keep)
  {
    if syms == [] then [] else RelabelAll(syms[..|syms| - 1], keep) + [Relabel(syms[|syms| - 1], keep)]
  }

  predicate Patches(syms: seq<Symbol>, keep: set<Bytes>, k: nat) {
    exists t :: 0 <= t < |syms| && syms[t].offset == k && Selected(syms[t], keep)
  }

  /** The places of the flags that are patched. */
  function Places(syms: seq<Symbol>, keep: set<Bytes>): set<nat> {
    set t | 0 <= t < |syms| && Selected(syms[t], keep) :: syms[t].offset
  }

  /** m' is m with the local bit set in the flags of the selected symbols, and nothing else changed. */
  ghost predicate Patched(m: Bytes, m': Bytes, syms: seq<Symbol>, keep: set<Bytes>) {
    && |m'| == |m|
    && forall k :: 0 <= k < |m| ==> m'[k] == if Patches(syms, keep, k) then SetBit(m[k], 2) else m[k]
  }

  // ---- a parse depends only on the bytes it reads ----

  ghost predicate Agree(m: Bytes, m': Bytes, i: nat, j: nat) {
    |m| == |m'| && forall k :: i <= k < j && k < |m| ==> m'[k] == m[k]
  }

  lemma {:induction false} UlebLocal(m: Bytes, m': Bytes, i: nat, end: nat)
    requires end <= |m| && Uleb(m, i, end).Ok?
    requires Agree(m, m', i, Uleb(m, i, end).i)
    ensures Uleb(m', i, end) == Uleb(m, i, end)
    decreases end - i
  {
    assert m'[i] == m[i];
    if m[i] >= 128 {
      UlebLocal(m, m', i + 1, end);
    }
  }

  /** The varint of the flags with bit 1 of its first byte set. */
  lemma FlagsLocal(m: Bytes, m': Bytes, i: nat, end: nat)
    requires end <= |m| && U64(m, i, end).Ok? && !Bit(U64(m, i, end).value, FLAG_LOCAL)
    requires Agree(m, m', i + 1, U64(m, i, end).i) && m'[i] == SetBit(m[i], 2)
    ensures U64(m', i, end) == Ok(SetBit(U64(m, i, end).value, FLAG_LOCAL), U64(m, i, end).i)
  {
    var v := Uleb(m, i, end).value;
    BitOfLowByte(v);
    if m[i] >= 128 {
      UlebLocal(m, m', i + 1, end);
      BitOfContinued(m[i], Uleb(m, i + 1, end).value);
    }
  }

  /** Cutting a number to 64 bits keeps bit 1, and adding bit 1 does not carry. */
  lemma {:induction false} BitOfLowByte(v: nat)
    ensures Bit(Cut64(v), 2) == Bit(v, 2)
    ensures !Bit(v, 2) ==> Cut64(v + 2) == Cut64(v) + 2
    decreases v
  {
    if v >= TWO64 {
      BitOfLowByte(v - TWO64);
      assert v / 2 == (v - TWO64) / 2 + 2 * (TWO64 / 4);
    } else if !Bit(v, 2) {
      assert v % 4 < 2;
    }
  }

  lemma BitOfContinued(c: Byte, rest: nat)
    requires c >= 128
    ensures Bit(c - 128 + 128 * rest, 2) == Bit(c, 2)
  {
    assert (c - 128 + 128 * rest) / 2 == c / 2 + 2 * (32 * rest - 32);
  }

  lemma NameLocal(m: Bytes, m': Bytes, i: nat, end: nat, from: bool, strict: bool)
    requires end <= |m| && Name(m, i, end, from).Ok? && (strict ==> from)
    requires Agree(m, m', i, Name(m, i, end, from).i)
    ensures Name(m', i, end, strict) == Name(m, i, end, from)
  {
    var j := U64(m, i, end).i;
    UlebLocal(m, m', i, end);
    var n := U64(m, i, end).value;
    assert m'[j..j + n] == m[j..j + n];
  }

  lemma LimitsLocal(m: Bytes, m': Bytes, i: nat, end: nat)
    requires end <= |m| && Limits(m, i, end).Ok?
    requires Agree(m, m', i, Limits(m, i, end).i)
    ensures Limits(m', i, end) == Limits(m, i, end)
  {
    var k := Uleb(m, i + 1, end).i;
    UlebLocal(m, m', i + 1, end);
    if m[i] % 2 == 1 {
      UlebLocal(m, m', k, end);
    }
  }

  lemma {:induction false} TypeLoopLocal(m: Bytes, m': Bytes, i: nat, end: nat, from: bool, strict: bool,
                                         n: nat, acc: seq<FuncSig>)
    requires end <= |m| && TypeLoop(m, i, end, from, n, acc).Ok? && (strict ==> from)
    requires Agree(m, m', i, TypeLoop(m, i, end, from, n, acc).i)
    ensures TypeLoop(m', i, end, strict, n, acc) == TypeLoop(m, i, end, from, n, acc)
    decreases n
  {
    hide Name;
    if n != 0 {
      NameLocal(m, m', i + 1, end, from, strict);
      var params := Name(m, i + 1, end, from);
      NameLocal(m, m', params.i, end, from, strict);
      var results := Name(m, params.i, end, from);
      TypeLoopLocal(m, m', results.i, end, from, strict, n - 1, acc + [FuncSig(params.value, results.value)]);
    }
  }

  lemma OneFieldLocal(m: Bytes, m': Bytes, i: nat, end: nat, f: Field)
    requires end <= |m| && OneField(m, i, end, f).Ok?
    requires Agree(m, m', i, OneField(m, i, end, f).i)
    ensures OneField(m', i, end, f) == OneField(m, i, end, f)
  {
    match f
    case FByte =>
    case FUleb => UlebLocal(m, m', i, end);
    case FLimits => LimitsLocal(m, m', i, end);
  }

  lemma {:induction false} FieldsLocal(m: Bytes, m': Bytes, i: nat, end: nat, fs: seq<Field>)
    requires end <= |m| && Fields(m, i, end, fs).Ok?
    requires Agree(m, m', i, Fields(m, i, end, fs).i)
    ensures Fields(m', i, end, fs) == Fields(m, i, end, fs)
    decreases |fs|
  {
    if fs != [] {
      OneFieldLocal(m, m', i, end, fs[0]);
      FieldsLocal(m, m', OneField(m, i, end, fs[0]).i, end, fs[1..]);
    }
  }

  lemma ImportLocal(m: Bytes, m': Bytes, i: nat, end: nat, from: bool, strict: bool)
    requires end <= |m| && Import(m, i, end, from).Ok? && (strict ==> from)
    requires Agree(m, m', i, Import(m, i, end, from).i)
    ensures Import(m', i, end, strict) == Import(m, i, end, from)
  {
    hide Name, Fields;
    NameLocal(m, m', i, end, from, strict);
    var j := Name(m, i, end, from).i;
    NameLocal(m, m', j, end, from, strict);
    var k := Name(m, j, end, from).i;
    assert m'[k] == m[k];
    FieldsLocal(m, m', k + 1, end, ImportFields(m[k]));
  }

  lemma {:induction false} ImportLoopLocal(m: Bytes, m': Bytes, i: nat, end: nat, from: bool, strict: bool,
                                           n: nat, funcs: nat)
    requires end <= |m| && ImportLoop(m, i, end, from, n, funcs).Ok? && (strict ==> from)
    requires Agree(m, m', i, ImportLoop(m, i, end, from, n, funcs).i)
    ensures ImportLoop(m', i, end, strict, n, funcs) == ImportLoop(m, i, end, from, n, funcs)
    decreases n
  {
    hide Import;
    if n != 0 {
      var p := Import(m, i, end, from);
      ImportLocal(m, m', i, end, from, strict);
      ImportLoopLocal(m, m', p.i, end, from, strict, n - 1, if p.value == 0 then funcs + 1 else funcs);
    }
  }

  lemma {:induction false} FuncLoopLocal(m: Bytes, m': Bytes, i: nat, end: nat, n: nat, acc: seq<nat>)
    requires end <= |m| && FuncLoop(m, i, end, n, acc).Ok?
    requires Agree(m, m', i, FuncLoop(m, i, end, n, acc).i)
    ensures FuncLoop(m', i, end, n, acc) == FuncLoop(m, i, end, n, acc)
    decreases n
  {
    if n != 0 {
      UlebLocal(m, m', i, end);
      var t := U64(m, i, end);
      FuncLoopLocal(m, m', t.i, end, n - 1, acc + [t.value % 0x1_0000_0000]);
    }
  }

  // ---- symbols ----

  /** The flags with the local bit decide the rest of a symbol as they did without it. */
  lemma LocalBit(f: nat)
    ensures Bit(SetBit(f, FLAG_LOCAL), FLAG_UNDEFINED) == Bit(f, FLAG_UNDEFINED)
    ensures Bit(SetBit(f, FLAG_LOCAL), FLAG_EXPLICIT_NAME) == Bit(f, FLAG_EXPLICIT_NAME)
    ensures Bit(SetBit(f, FLAG_LOCAL), FLAG_LOCAL)
  {
    if !Bit(f, FLAG_LOCAL) {
      SameQuarter(f);
      ByQuarters(f);
      ByQuarters(f + 2);
    }
  }

  /** Setting a clear second bit changes nothing above it. */
  lemma SameQuarter(f: nat)
    requires (f / 2) % 2 == 0
    ensures (f + 2) / 4 == f / 4 && ((f + 2) / 2) % 2 == 1
  {
  }

  lemma ByQuarters(f: nat)
    ensures f / 16 == f / 4 / 4
    ensures f / 64 == f / 4 / 16
  {
  }

  ghost predicate SameBut(s: Symbol, s': Symbol) {
    s'.kind == s.kind && s'.Defined() == s.Defined() && s'.Named() == s.Named()
  }

  /** st with other symbols; the rest is what signatures come from. */
  ghost predicate SameContext(st: State, st': State) {
    st'.types == st.types && st'.imported == st.imported && st'.funcs == st.funcs
  }

  /** The rest of a symbol is read alike whatever its flags say of binding. */
  lemma SymbolRestLocal(m: Bytes, m': Bytes, i: nat, end: nat, from: bool, strict: bool,
                        st: State, st': State, s: Symbol, s': Symbol)
    requires end <= |m| && SymbolRest(m, i, end, from, st, s).Ok? && (strict ==> from)
    requires Agree(m, m', i, SymbolRest(m, i, end, from, st, s).i)
    requires SameBut(s, s') && SameContext(st, st')
    ensures var r, r' := SymbolRest(m, i, end, from, st, s), SymbolRest(m', i, end, strict, st', s');
            && r.value == s.(name := r.value.name, func := r.value.func)
            && r' == Ok(s'.(name := r.value.name, func := r.value.func), r.i)
  {
    hide Name, Fields, Uleb;
    if s.kind != KIND_DATA {
      UlebLocal(m, m', i, end);
    }
    var j := if s.kind == KIND_DATA then i else U64(m, i, end).i;
    if s.kind == KIND_DATA || (s.kind != KIND_SECTION && s.Named()) {
      NameLocal(m, m', j, end, from, strict);
    }
    var named := s.kind == KIND_DATA || (s.kind != KIND_SECTION && s.Named());
    var k := if named then Name(m, j, end, from).i else j;
    FieldsLocal(m, m', k, end, if s.kind == KIND_DATA && s.Defined() then [FUleb, FUleb, FUleb] else []);
  }

  /** One symbol, its own flags patched if it is selected. */
  lemma OneSymbolLocal(m: Bytes, m': Bytes, i: nat, end: nat, from: bool, strict: bool,
                       st: State, st': State, keep: set<Bytes>)
    requires end <= |m| && |m'| == |m| && OneSymbol(m, i, end, from, st).Ok? && SameContext(st, st')
    requires (strict ==> from)
    requires var r := OneSymbol(m, i, end, from, st);
             && Agree(m, m', i, i + 1) && Agree(m, m', i + 2, r.i)
             && m'[i + 1] == if Selected(r.value, keep) then SetBit(m[i + 1], 2) else m[i + 1]
    ensures var r := OneSymbol(m, i, end, from, st);
            OneSymbol(m', i, end, strict, st') == Ok(Relabel(r.value, keep), r.i)
  {
    hide SymbolRest, Uleb;
    var flags := U64(m, i + 1, end);
    var s := Symbol(m[i], flags.value, i + 1, [], NoSig);
    LocalBit(flags.value);
    var selected := Selected(OneSymbol(m, i, end, from, st).value, keep);
    var s' := if selected then s.(flags := SetBit(s.flags, FLAG_LOCAL)) else s;
    SymbolRestLocal(m, m', flags.i, end, from, strict, st, st', s, s');
    if s' == s {
      UlebLocal(m, m', i + 1, end);
    } else {
      FlagsLocal(m, m', i + 1, end);
    }
  }

  // ---- reading every patched byte once ----

  /** Nothing from i to j is patched. */
  predicate Clear(ps: set<nat>, i: nat, j: nat) {
    forall k :: k in ps ==> !(i <= k < j)
  }

  /** The only byte of a symbol that is patched is the first of its flags, and that exactly if it is selected. */
  predicate SymbolOnce(m: Bytes, i: nat, end: nat, strict: bool, st: State, ps: set<nat>, keep: set<Bytes>)
    requires end <= |m|
  {
    var s := OneSymbol(m, i, end, strict, st);
    s.Ok? ==> Clear(ps, i, i + 1) && Clear(ps, i + 2, s.i) && (i + 1 in ps <==> Selected(s.value, keep))
  }

  predicate SymbolLoopOnce(m: Bytes, i: nat, end: nat, strict: bool, n: nat, st: State, ps: set<nat>, keep: set<Bytes>)
    requires end <= |m|
    decreases n
  {
    n > 0 ==>
      && SymbolOnce(m, i, end, strict, st, ps, keep)
      && var s := OneSymbol(m, i, end, strict, st);
      s.Ok? ==> SymbolLoopOnce(m, s.i, end, strict, n - 1, st.(syms := st.syms + [s.value]), ps, keep)
  }

  predicate SymbolTableOnce(m: Bytes, i: nat, end: nat, strict: bool, st: State, ps: set<nat>, keep: set<Bytes>)
    requires end <= |m|
  {
    var n := U64(m, i, end);
    n.Ok? ==> Clear(ps, i, n.i) && SymbolLoopOnce(m, n.i, end, strict, n.value, st, ps, keep)
  }

  predicate SubsectionOnce(m: Bytes, i: nat, end: nat, strict: bool, st: State, ps: set<nat>, keep: set<Bytes>)
    requires end <= |m| && i < end
  {
    var size := U64(m, i + 1, end);
    size.Ok? && size.i + size.value <= |m| ==>
      && Clear(ps, i, size.i)
      && (m[i] == 8 ==> SymbolTableOnce(m, size.i, size.i + size.value, strict, st, ps, keep))
  }

  predicate LinkingLoopOnce(m: Bytes, i: nat, end: nat, strict: bool, st: State, ps: set<nat>, keep: set<Bytes>)
    requires end <= |m|
    decreases end - i
  {
    i < end ==>
      && SubsectionOnce(m, i, end, strict, st, ps, keep)
      && var r := Subsection(m, i, end, strict, st);
      r.Ok? ==> LinkingLoopOnce(m, r.i, end, strict, r.value, ps, keep)
  }

  predicate CustomOnce(m: Bytes, i: nat, end: nat, strict: bool, st: State, ps: set<nat>, keep: set<Bytes>)
    requires end <= |m|
  {
    var name := Name(m, i, end, strict);
    name.Ok? ==>
      && Clear(ps, i, name.i)
      && (name.value == LINKING ==>
            var version := Uleb(m, name.i, end);
            version.Ok? ==>
              Clear(ps, name.i, version.i) && LinkingLoopOnce(m, version.i, end, strict, st.(found := true), ps, keep))
  }

  /** Types, imports and functions are read from i on without a gap; of other sections nothing is read. */
  predicate ContentsOnce(m: Bytes, id: Byte, i: nat, end: nat, strict: bool, st: State, ps: set<nat>, keep: set<Bytes>)
    requires end <= |m|
  {
    if id == 0 then CustomOnce(m, i, end, strict, st, ps, keep)
    else
      var r := Contents(m, id, i, end, strict, st);
      r.Ok? ==> Clear(ps, i, r.i)
  }

  predicate SectionOnce(m: Bytes, i: nat, end: nat, strict: bool, st: State, ps: set<nat>, keep: set<Bytes>)
    requires end <= |m| && i < end
  {
    var size := U64(m, i + 1, end);
    size.Ok? && size.i + size.value <= |m| ==>
      && Clear(ps, i, size.i)
      && ContentsOnce(m, m[i], size.i, size.i + size.value, strict, st, ps, keep)
  }

  predicate SectionLoopOnce(m: Bytes, i: nat, end: nat, strict: bool, st: State, ps: set<nat>, keep: set<Bytes>)
    requires end <= |m|
    decreases end - i
  {
    i < end ==>
      && SectionOnce(m, i, end, strict, st, ps, keep)
      && var r := Section(m, i, end, strict, st);
      r.Ok? ==> SectionLoopOnce(m, r.i, end, strict, r.value, ps, keep)
  }

  /**
   In reading the object, every byte that would be patched is read as the flags of a selected symbol and no
   other way.
   */
  predicate ReadOnce(m: Bytes, len: nat, strict: bool, keep: set<Bytes>)
    requires len <= |m|
  {
    && Symbols(m, len, strict).Ok?
    && var ps := Places(Symbols(m, len, strict).value, keep);
    Clear(ps, 0, 8) && SectionLoopOnce(m, 8, len, strict, EMPTY, ps, keep)
  }

  // ---- the patched object, in step with the original ----

  /** m' is m with the local bit set at the places ps. */
  ghost predicate PatchedAt(m: Bytes, m': Bytes, ps: set<nat>) {
    |m'| == |m| && forall k :: 0 <= k < |m| ==> m'[k] == if k in ps then SetBit(m[k], 2) else m[k]
  }

  lemma ClearAgrees(m: Bytes, m': Bytes, ps: set<nat>, i: nat, j: nat)
    requires PatchedAt(m, m', ps) && Clear(ps, i, j)
    ensures Agree(m, m', i, j)
  {
  }

  /** A parse state of the patched object: the symbols are relabelled. */
  function Relabelled(st: State, keep: set<Bytes>): State {
    st.(syms := RelabelAll(st.syms, keep))
  }

  lemma SymbolFollows(m: Bytes, m': Bytes, i: nat, end: nat, from: bool, strict: bool,
                      st: State, ps: set<nat>, keep: set<Bytes>)
    requires end <= |m| && OneSymbol(m, i, end, from, st).Ok? && (strict ==> from)
    requires PatchedAt(m, m', ps) && SymbolOnce(m, i, end, from, st, ps, keep)
    ensures var s := OneSymbol(m, i, end, from, st);
            OneSymbol(m', i, end, strict, Relabelled(st, keep)) == Ok(Relabel(s.value, keep), s.i)
  {
    hide OneSymbol;
    ClearAgrees(m, m', ps, i, i + 1);
    ClearAgrees(m, m', ps, i + 2, OneSymbol(m, i, end, from, st).i);
    OneSymbolLocal(m, m', i, end, from, strict, st, Relabelled(st, keep), keep);
  }

  lemma {:induction false} SymbolLoopFollows(m: Bytes, m': Bytes, i: nat, end: nat, from: bool, strict: bool,
                                             n: nat, st: State, ps: set<nat>, keep: set<Bytes>)
    requires end <= |m| && SymbolLoop(m, i, end, from, n, st).Ok? && (strict ==> from)
    requires PatchedAt(m, m', ps) && SymbolLoopOnce(m, i, end, from, n, st, ps, keep)
    ensures var r := SymbolLoop(m, i, end, from, n, st);
            SymbolLoop(m', i, end, strict, n, Relabelled(st, keep)) == Ok(Relabelled(r.value, keep), r.i)
    decreases n
  {
    hide OneSymbol, SymbolOnce;
    if n != 0 {
      var s := OneSymbol(m, i, end, from, st);
      var st1 := st.(syms := st.syms + [s.value]);
      SymbolFollows(m, m', i, end, from, strict, st, ps, keep);
      assert Relabelled(st1, keep).syms == Relabelled(st, keep).syms + [Relabel(s.value, keep)];
      SymbolLoopFollows(m, m', s.i, end, from, strict, n - 1, st1, ps, keep);
    }
  }

  lemma SymbolTableFollows(m: Bytes, m': Bytes, i: nat, end: nat, from: bool, strict: bool,
                           st: State, ps: set<nat>, keep: set<Bytes>)
    requires end <= |m| && SymbolTable(m, i, end, from, st).Ok? && (strict ==> from)
    requires PatchedAt(m, m', ps) && SymbolTableOnce(m, i, end, from, st, ps, keep)
    ensures var r := SymbolTable(m, i, end, from, st);
            SymbolTable(m', i, end, strict, Relabelled(st, keep)) == Ok(Relabelled(r.value, keep), r.i)
  {
    hide SymbolLoop, SymbolLoopOnce, Uleb;
    var n := U64(m, i, end);
    ClearAgrees(m, m', ps, i, n.i);
    UlebLocal(m, m', i, end);
    SymbolLoopFollows(m, m', n.i, end, from, strict, n.value, st, ps, keep);
  }

  lemma SubsectionFollows(m: Bytes, m': Bytes, i: nat, end: nat, from: bool, strict: bool,
                          st: State, ps: set<nat>, keep: set<Bytes>)
    requires end <= |m| && i < end && Subsection(m, i, end, from, st).Ok? && (strict ==> from)
    requires PatchedAt(m, m', ps) && SubsectionOnce(m, i, end, from, st, ps, keep)
    ensures var r := Subsection(m, i, end, from, st);
            Subsection(m', i, end, strict, Relabelled(st, keep)) == Ok(Relabelled(r.value, keep), r.i)
  {
    hide SymbolTable, SymbolTableOnce, Uleb;
    var size := U64(m, i + 1, end);
    ClearAgrees(m, m', ps, i, size.i);
    UlebLocal(m, m', i + 1, end);
    assert m'[i] == m[i];
    if m[i] == 8 {
      SymbolTableFollows(m, m', size.i, size.i + size.value, from, strict, st, ps, keep);
    }
  }

  lemma {:induction false} LinkingLoopFollows(m: Bytes, m': Bytes, i: nat, end: nat, from: bool, strict: bool,
                                              st: State, ps: set<nat>, keep: set<Bytes>)
    requires end <= |m| && LinkingLoop(m, i, end, from, st).Ok? && (strict ==> from)
    requires PatchedAt(m, m', ps) && LinkingLoopOnce(m, i, end, from, st, ps, keep)
    ensures var r := LinkingLoop(m, i, end, from, st);
            LinkingLoop(m', i, end, strict, Relabelled(st, keep)) == Ok(Relabelled(r.value, keep), r.i)
    decreases end - i
  {
    hide Subsection, SubsectionOnce;
    if i < end {
      var r := Subsection(m, i, end, from, st);
      SubsectionFollows(m, m', i, end, from, strict, st, ps, keep);
      LinkingLoopFollows(m, m', r.i, end, from, strict, r.value, ps, keep);
    }
  }

  lemma CustomFollows(m: Bytes, m': Bytes, i: nat, end: nat, from: bool, strict: bool,
                      st: State, ps: set<nat>, keep: set<Bytes>)
    requires end <= |m| && CustomSection(m, i, end, from, st).Ok? && (strict ==> from)
    requires PatchedAt(m, m', ps) && CustomOnce(m, i, end, from, st, ps, keep)
    ensures var r := CustomSection(m, i, end, from, st);
            CustomSection(m', i, end, strict, Relabelled(st, keep)) == Ok(Relabelled(r.value, keep), r.i)
  {
    hide Name, Uleb, LinkingLoop, LinkingLoopOnce;
    var name := Name(m, i, end, from);
    ClearAgrees(m, m', ps, i, name.i);
    NameLocal(m, m', i, end, from, strict);
    if name.value == LINKING {
      var version := Uleb(m, name.i, end);
      ClearAgrees(m, m', ps, name.i, version.i);
      UlebLocal(m, m', name.i, end);
      LinkingLoopFollows(m, m', version.i, end, from, strict, st.(found := true), ps, keep);
    }
  }

  /** A section without symbols, read alike. */
  lemma CountedFollows(m: Bytes, m': Bytes, id: Byte, i: nat, end: nat, from: bool, strict: bool,
                       st: State, keep: set<Bytes>)
    requires end <= |m| && CountedSection(m, id, i, end, from, st).Ok? && (strict ==> from)
    requires Agree(m, m', i, CountedSection(m, id, i, end, from, st).i)
    ensures var r := CountedSection(m, id, i, end, from, st);
            CountedSection(m', id, i, end, strict, Relabelled(st, keep)) == Ok(Relabelled(r.value, keep), r.i)
  {
    hide Uleb, TypeLoop, ImportLoop, FuncLoop;
    var n := U64(m, i, end);
    UlebLocal(m, m', i, end);
    if id == 1 {
      TypeLoopLocal(m, m', n.i, end, from, strict, n.value, st.types);
    } else if id == 2 {
      ImportLoopLocal(m, m', n.i, end, from, strict, n.value, st.imported);
    } else {
      FuncLoopLocal(m, m', n.i, end, n.value, st.funcs);
    }
  }

  lemma SectionFollows(m: Bytes, m': Bytes, i: nat, end: nat, from: bool, strict: bool,
                       st: State, ps: set<nat>, keep: set<Bytes>)
    requires end <= |m| && i < end && Section(m, i, end, from, st).Ok? && (strict ==> from)
    requires PatchedAt(m, m', ps) && SectionOnce(m, i, end, from, st, ps, keep)
    ensures var r := Section(m, i, end, from, st);
            Section(m', i, end, strict, Relabelled(st, keep)) == Ok(Relabelled(r.value, keep), r.i)
  {
    hide Uleb, CustomSection, CustomOnce, CountedSection;
    var size := U64(m, i + 1, end);
    var next := size.i + size.value;
    ClearAgrees(m, m', ps, i, size.i);
    UlebLocal(m, m', i + 1, end);
    assert m'[i] == m[i];
    if m[i] == 0 {
      CustomFollows(m, m', size.i, next, from, strict, st, ps, keep);
    } else if m[i] <= 3 {
      ClearAgrees(m, m', ps, size.i, Contents(m, m[i], size.i, next, from, st).i);
      CountedFollows(m, m', m[i], size.i, next, from, strict, st, keep);
    }
  }

  lemma {:induction false} SectionLoopFollows(m: Bytes, m': Bytes, i: nat, end: nat, from: bool, strict: bool,
                                              st: State, ps: set<nat>, keep: set<Bytes>)
    requires end <= |m| && SectionLoop(m, i, end, from, st).Ok? && (strict ==> from)
    requires PatchedAt(m, m', ps) && SectionLoopOnce(m, i, end, from, st, ps, keep)
    ensures var r := SectionLoop(m, i, end, from, st);
            SectionLoop(m', i, end, strict, Relabelled(st, keep)) == Ok(Relabelled(r.value, keep), r.i)
    decreases end - i
  {
    hide Section, SectionOnce;
    if i < end {
      var r := Section(m, i, end, from, st);
      SectionFollows(m, m', i, end, from, strict, st, ps, keep);
      SectionLoopFollows(m, m', r.i, end, from, strict, r.value, ps, keep);
    }
  }

  /**
   For every object in which each byte to be patched is read once, as flags: the patched object parses, as
   the code does it, to the same symbols with the local flag added on exactly the selected ones; their
   number, order, offsets, names and signatures stay. from and strict are the bounds of the two readings.
   */
  lemma ReadOnceCommutes(m: Bytes, m': Bytes, len: nat, keep: set<Bytes>, from: bool, strict: bool)
    requires len <= |m| && ReadOnce(m, len, from, keep) && (strict ==> from)
    requires Patched(m, m', Symbols(m, len, from).value, keep)
    ensures Symbols(m', len, strict) == Ok(RelabelAll(Symbols(m, len, from).value, keep), Symbols(m, len, from).i)
  {
    hide SectionLoop, SectionLoopOnce;
    var all := Symbols(m, len, from).value;
    var ps := Places(all, keep);
    assert forall k: nat :: Patches(all, keep, k) <==> k in ps;
    assert PatchedAt(m, m', ps);
    ClearAgrees(m, m', ps, 0, 8);
    SectionLoopFollows(m, m', 8, len, from, strict, EMPTY, ps, keep);
    assert RelabelAll([], keep) == [] && Relabelled(EMPTY, keep) == EMPTY;
    assert m'[..8] == m[..8];
  }
}
