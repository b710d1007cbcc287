/**
 Objects whose sections and subsections stay within their bounds: no byte of them is read twice, so that
 localizing symbols in place commutes with reading them.
 */
module WasmLocalize {
  import opened WasmObj
  import opened WasmReadOnce

  // ---- where the symbols of a parse lie ----

  /** st' has st's symbols and more, whose flags lie from i to j. */
  ghost predicate Grows(st: State, st': State, i: nat, j: nat) {
    && |st.syms| <= |st'.syms| && st'.syms[..|st.syms|] == st.syms
    && forall t :: |st.syms| <= t < |st'.syms| ==> i <= st'.syms[t].offset < j
  }

  lemma GrowsOn(a: State, b: State, c: State, i: nat, j: nat, k: nat)
    requires Grows(a, b, i, j) && Grows(b, c, j, k) && i <= j <= k
    ensures Grows(a, c, i, k)
  {
    assert c.syms[..|a.syms|] == c.syms[..|b.syms|][..|a.syms|];
    forall t | |a.syms| <= t < |c.syms| ensures i <= c.syms[t].offset < k {
      if t < |b.syms| { assert c.syms[t] == c.syms[..|b.syms|][t]; }
    }
  }

  lemma {:induction false} SymbolLoopGrows(m: Bytes, i: nat, end: nat, n: nat, st: State)
    requires end <= |m| && i <= end && SymbolLoop(m, i, end, true, n, st).Ok?
    ensures var r := SymbolLoop(m, i, end, true, n, st);
            Grows(st, r.value, i, r.i) && r.value == st.(syms := r.value.syms)
    decreases n
  {
    hide SymbolRest, Uleb;
    if n != 0 {
      var s := OneSymbol(m, i, end, true, st);
      var st1 := st.(syms := st.syms + [s.value]);
      SymbolLoopGrows(m, s.i, end, n - 1, st1);
      var r := SymbolLoop(m, s.i, end, true, n - 1, st1);
      GrowsOn(st, st1, r.value, i, s.i, r.i);
    }
  }

  lemma SubsectionGrows(m: Bytes, i: nat, end: nat, st: State)
    requires end <= |m| && Subsection(m, i, end, true, st).Ok?
    ensures var r := Subsection(m, i, end, true, st);
            && Grows(st, r.value, U64(m, i + 1, end).i, r.i) && r.value == st.(syms := r.value.syms)
            && i < U64(m, i + 1, end).i <= r.i <= end
  {
    var size := U64(m, i + 1, end);
    if m[i] == 8 {
      var next := size.i + size.value;
      var n := U64(m, size.i, next);
      SymbolLoopGrows(m, n.i, next, n.value, st);
    }
  }

  lemma {:induction false} LinkingLoopGrows(m: Bytes, i: nat, end: nat, st: State)
    requires end <= |m| && i <= end && LinkingLoop(m, i, end, true, st).Ok?
    ensures var r := LinkingLoop(m, i, end, true, st);
            Grows(st, r.value, i, end) && r.value == st.(syms := r.value.syms)
    decreases end - i
  {
    if i < end {
      SubsectionGrows(m, i, end, st);
      var r := Subsection(m, i, end, true, st);
      LinkingLoopGrows(m, r.i, end, r.value);
      GrowsOn(st, r.value, LinkingLoop(m, r.i, end, true, r.value).value, i, r.i, end);
    }
  }

  lemma ContentsGrows(m: Bytes, id: Byte, i: nat, end: nat, st: State)
    requires end <= |m| && i <= end && Contents(m, id, i, end, true, st).Ok?
    ensures Grows(st, Contents(m, id, i, end, true, st).value, i, end)
    ensures id != 0 ==> Contents(m, id, i, end, true, st).value.syms == st.syms
  {
    if id == 0 {
      var name := Name(m, i, end, true);
      if name.value == LINKING {
        var version := Uleb(m, name.i, end);
        LinkingLoopGrows(m, version.i, end, st.(found := true));
      }
    }
  }

  lemma SectionGrows(m: Bytes, i: nat, end: nat, st: State)
    requires end <= |m| && Section(m, i, end, true, st).Ok?
    ensures var r := Section(m, i, end, true, st);
            Grows(st, r.value, i, r.i) && r.i <= end
  {
    hide U64, Contents;
    var size := U64(m, i + 1, end);
    ContentsGrows(m, m[i], size.i, size.i + size.value, st);
  }

  lemma {:induction false} SectionLoopGrows(m: Bytes, i: nat, end: nat, st: State)
    requires end <= |m| && i <= end && SectionLoop(m, i, end, true, st).Ok?
    ensures Grows(st, SectionLoop(m, i, end, true, st).value, i, end)
    decreases end - i
  {
    if i < end {
      SectionGrows(m, i, end, st);
      var r := Section(m, i, end, true, st);
      SectionLoopGrows(m, r.i, end, r.value);
      GrowsOn(st, r.value, SectionLoop(m, r.i, end, true, r.value).value, i, r.i, end);
    }
  }

  // ---- within strict bounds, the bounds make no difference ----

  lemma OneSymbolBounds(m: Bytes, i: nat, end: nat, strict: bool, st: State)
    requires end <= |m| && OneSymbol(m, i, end, true, st).Ok?
    ensures OneSymbol(m, i, end, strict, st) == OneSymbol(m, i, end, true, st)
  {
    OneSymbolLocal(m, m, i, end, true, strict, st, st, {OneSymbol(m, i, end, true, st).value.name});
  }

  lemma {:induction false} SymbolLoopBounds(m: Bytes, i: nat, end: nat, strict: bool, n: nat, st: State)
    requires end <= |m| && SymbolLoop(m, i, end, true, n, st).Ok?
    ensures SymbolLoop(m, i, end, strict, n, st) == SymbolLoop(m, i, end, true, n, st)
    decreases n
  {
    hide OneSymbol;
    if n != 0 {
      OneSymbolBounds(m, i, end, strict, st);
      var s := OneSymbol(m, i, end, true, st);
      SymbolLoopBounds(m, s.i, end, strict, n - 1, st.(syms := st.syms + [s.value]));
    }
  }

  lemma SubsectionBounds(m: Bytes, i: nat, end: nat, strict: bool, st: State)
    requires end <= |m| && Subsection(m, i, end, true, st).Ok?
    ensures Subsection(m, i, end, strict, st) == Subsection(m, i, end, true, st)
  {
    hide SymbolLoop, Uleb;
    var size := U64(m, i + 1, end);
    if m[i] == 8 {
      var n := U64(m, size.i, size.i + size.value);
      SymbolLoopBounds(m, n.i, size.i + size.value, strict, n.value, st);
    }
  }

  lemma {:induction false} LinkingLoopBounds(m: Bytes, i: nat, end: nat, strict: bool, st: State)
    requires end <= |m| && LinkingLoop(m, i, end, true, st).Ok?
    ensures LinkingLoop(m, i, end, strict, st) == LinkingLoop(m, i, end, true, st)
    decreases end - i
  {
    hide Subsection;
    if i < end {
      SubsectionBounds(m, i, end, strict, st);
      var r := Subsection(m, i, end, true, st);
      LinkingLoopBounds(m, r.i, end, strict, r.value);
    }
  }

  lemma ContentsBounds(m: Bytes, id: Byte, i: nat, end: nat, strict: bool, st: State)
    requires end <= |m| && Contents(m, id, i, end, true, st).Ok?
    ensures Contents(m, id, i, end, strict, st) == Contents(m, id, i, end, true, st)
  {
    hide Name, Uleb, LinkingLoop, TypeLoop, ImportLoop;
    if id == 0 {
      NameLocal(m, m, i, end, true, strict);
      var name := Name(m, i, end, true);
      if name.value == LINKING {
        LinkingLoopBounds(m, Uleb(m, name.i, end).i, end, strict, st.(found := true));
      }
    } else if id <= 3 {
      var n := U64(m, i, end);
      if id == 1 {
        TypeLoopLocal(m, m, n.i, end, true, strict, n.value, st.types);
      } else if id == 2 {
        ImportLoopLocal(m, m, n.i, end, true, strict, n.value, st.imported);
      }
    }
  }

  lemma SectionBounds(m: Bytes, i: nat, end: nat, strict: bool, st: State)
    requires end <= |m| && Section(m, i, end, true, st).Ok?
    ensures Section(m, i, end, strict, st) == Section(m, i, end, true, st)
  {
    hide Uleb, Contents;
    var size := U64(m, i + 1, end);
    ContentsBounds(m, m[i], size.i, size.i + size.value, strict, st);
  }

  lemma {:induction false} SectionLoopBounds(m: Bytes, i: nat, end: nat, strict: bool, st: State)
    requires end <= |m| && SectionLoop(m, i, end, true, st).Ok?
    ensures SectionLoop(m, i, end, strict, st) == SectionLoop(m, i, end, true, st)
    decreases end - i
  {
    hide Section;
    if i < end {
      SectionBounds(m, i, end, strict, st);
      var r := Section(m, i, end, true, st);
      SectionLoopBounds(m, r.i, end, strict, r.value);
    }
  }

  /** On objects whose parts stay within their bounds the bound by capacity makes no difference. */
  lemma BoundsMakeNoDifference(m: Bytes, len: nat)
    requires len <= |m| && Symbols(m, len, true).Ok?
    ensures Symbols(m, len, false) == Symbols(m, len, true)
  {
    SectionLoopBounds(m, 8, len, false, EMPTY);
  }

  // ---- within strict bounds, every byte is read once ----

  /** The first k symbols lie before i, the others at i or after. */
  ghost predicate Placed(syms: seq<Symbol>, k: nat, i: nat) {
    && k <= |syms|
    && (forall t :: 0 <= t < k ==> syms[t].offset < i)
    && (forall t :: k <= t < |syms| ==> i <= syms[t].offset)
  }

  /** No symbol lies between i and j, so nothing is patched there. */
  lemma ClearBetween(syms: seq<Symbol>, keep: set<Bytes>, k: nat, i: nat, j: nat)
    requires Placed(syms, k, i) && Placed(syms, k, j)
    ensures Clear(Places(syms, keep), i, j)
  {
  }

  /** r's symbols are the first of all, and those after them lie at end or later. */
  ghost predicate Upto(all: seq<Symbol>, r: State, end: nat) {
    |r.syms| <= |all| && r.syms == all[..|r.syms|] && Placed(all, |r.syms|, end)
  }

  lemma UptoBefore(all: seq<Symbol>, st: State, r: State, i: nat, end: nat)
    requires Upto(all, r, end) && Grows(st, r, i, end) && i <= end
    requires forall t :: 0 <= t < |st.syms| ==> st.syms[t].offset < i
    ensures Upto(all, st, i)
  {
    assert st.syms == r.syms[..|st.syms|] == all[..|st.syms|];
    forall t | |st.syms| <= t < |all| ensures i <= all[t].offset {
      if t < |r.syms| { assert all[t] == r.syms[t]; }
    }
    forall t | 0 <= t < |st.syms| ensures all[t].offset < i {
      assert all[t] == st.syms[t];
    }
  }

  /** The next symbol is the next of all, and the only one patched in its bytes. */
  lemma SymbolIsOnce(m: Bytes, all: seq<Symbol>, keep: set<Bytes>, i: nat, end: nat, strict: bool, n: nat, st: State)
    requires end <= |m| && i <= end && n > 0 && SymbolLoop(m, i, end, true, n, st).Ok?
    requires Upto(all, st, i) && Upto(all, SymbolLoop(m, i, end, true, n, st).value, end)
    ensures var s := OneSymbol(m, i, end, true, st);
            && SymbolOnce(m, i, end, strict, st, Places(all, keep), keep)
            && OneSymbol(m, i, end, strict, st) == s
            && Upto(all, st.(syms := st.syms + [s.value]), s.i)
  {
    hide OneSymbol;
    var r := SymbolLoop(m, i, end, true, n, st);
    var s := OneSymbol(m, i, end, true, st);
    var st1 := st.(syms := st.syms + [s.value]);
    OneSymbolBounds(m, i, end, strict, st);
    SymbolLoopGrows(m, s.i, end, n - 1, st1);
    assert Grows(st1, r.value, s.i, end);
    UptoBefore(all, st1, r.value, s.i, end);
    assert all[|st.syms|] == st1.syms[|st.syms|] == s.value;
    OnlyPlace(all, keep, |st.syms|, i, s.i);
  }

  /** Between i and j the only flags byte is the one at i + 1. */
  lemma OnlyPlace(all: seq<Symbol>, keep: set<Bytes>, k: nat, i: nat, j: nat)
    requires k < |all| && all[k].offset == i + 1 && i + 2 < j && Placed(all, k, i) && Placed(all, k + 1, j)
    ensures Clear(Places(all, keep), i, i + 1) && Clear(Places(all, keep), i + 2, j)
    ensures i + 1 in Places(all, keep) <==> Selected(all[k], keep)
  {
  }

  lemma {:induction false} SymbolLoopIsOnce(m: Bytes, all: seq<Symbol>, keep: set<Bytes>,
                                            i: nat, end: nat, strict: bool, n: nat, st: State)
    requires end <= |m| && i <= end && SymbolLoop(m, i, end, true, n, st).Ok?
    requires Upto(all, st, i) && Upto(all, SymbolLoop(m, i, end, true, n, st).value, end)
    ensures SymbolLoopOnce(m, i, end, strict, n, st, Places(all, keep), keep)
    decreases n
  {
    hide OneSymbol, SymbolOnce, Upto;
    if n != 0 {
      var s := OneSymbol(m, i, end, true, st);
      SymbolIsOnce(m, all, keep, i, end, strict, n, st);
      SymbolLoopIsOnce(m, all, keep, s.i, end, strict, n - 1, st.(syms := st.syms + [s.value]));
    }
  }

  lemma SymbolTableIsOnce(m: Bytes, all: seq<Symbol>, keep: set<Bytes>, i: nat, end: nat, strict: bool, st: State)
    requires end <= |m| && i <= end && SymbolTable(m, i, end, true, st).Ok?
    requires Upto(all, st, i) && Upto(all, SymbolTable(m, i, end, true, st).value, end)
    ensures SymbolTableOnce(m, i, end, strict, st, Places(all, keep), keep)
  {
    hide SymbolLoop, Uleb;
    var r := SymbolTable(m, i, end, true, st);
    var n := U64(m, i, end);
    SymbolLoopGrows(m, n.i, end, n.value, st);
    UptoBefore(all, st, r.value, n.i, end);
    ClearBetween(all, keep, |st.syms|, i, n.i);
    SymbolLoopIsOnce(m, all, keep, n.i, end, strict, n.value, st);
  }

  lemma SubsectionIsOnce(m: Bytes, all: seq<Symbol>, keep: set<Bytes>, i: nat, end: nat, strict: bool, st: State)
    requires end <= |m| && i < end && Subsection(m, i, end, true, st).Ok?
    requires Upto(all, st, i) && Upto(all, Subsection(m, i, end, true, st).value, Subsection(m, i, end, true, st).i)
    ensures SubsectionOnce(m, i, end, strict, st, Places(all, keep), keep)
  {
    hide SymbolTable, SymbolTableOnce, Uleb;
    var r := Subsection(m, i, end, true, st);
    var size := U64(m, i + 1, end);
    SubsectionGrows(m, i, end, st);
    UptoBefore(all, st, r.value, size.i, r.i);
    ClearBetween(all, keep, |st.syms|, i, size.i);
    if m[i] == 8 {
      SymbolTableIsOnce(m, all, keep, size.i, r.i, strict, st);
    }
  }

  lemma {:induction false} LinkingLoopIsOnce(m: Bytes, all: seq<Symbol>, keep: set<Bytes>,
                                             i: nat, end: nat, strict: bool, st: State)
    requires end <= |m| && i <= end && LinkingLoop(m, i, end, true, st).Ok?
    requires Upto(all, st, i) && Upto(all, LinkingLoop(m, i, end, true, st).value, end)
    ensures LinkingLoopOnce(m, i, end, strict, st, Places(all, keep), keep)
    decreases end - i
  {
    hide Subsection, SubsectionOnce;
    if i < end {
      var r := Subsection(m, i, end, true, st);
      SubsectionGrows(m, i, end, st);
      LinkingLoopGrows(m, r.i, end, r.value);
      UptoBefore(all, r.value, LinkingLoop(m, i, end, true, st).value, r.i, end);
      SubsectionIsOnce(m, all, keep, i, end, strict, st);
      SubsectionBounds(m, i, end, strict, st);
      LinkingLoopIsOnce(m, all, keep, r.i, end, strict, r.value);
    }
  }

  lemma CustomIsOnce(m: Bytes, all: seq<Symbol>, keep: set<Bytes>, i: nat, end: nat, strict: bool, st: State)
    requires end <= |m| && i <= end && CustomSection(m, i, end, true, st).Ok?
    requires Upto(all, st, i) && Upto(all, CustomSection(m, i, end, true, st).value, end)
    ensures CustomOnce(m, i, end, strict, st, Places(all, keep), keep)
  {
    hide Name, Uleb, LinkingLoop, LinkingLoopOnce;
    var r := CustomSection(m, i, end, true, st);
    var name := Name(m, i, end, true);
    NameLocal(m, m, i, end, true, strict);
    if name.value == LINKING {
      var version := Uleb(m, name.i, end);
      LinkingLoopGrows(m, version.i, end, st.(found := true));
      UptoBefore(all, st, r.value, version.i, end);
      ClearBetween(all, keep, |st.syms|, i, version.i);
      LinkingLoopIsOnce(m, all, keep, version.i, end, strict, st.(found := true));
    } else {
      ClearBetween(all, keep, |st.syms|, i, end);
    }
  }

  lemma ContentsIsOnce(m: Bytes, all: seq<Symbol>, keep: set<Bytes>, id: Byte,
                       i: nat, end: nat, strict: bool, st: State)
    requires end <= |m| && i <= end && Contents(m, id, i, end, true, st).Ok?
    requires Upto(all, st, i) && Upto(all, Contents(m, id, i, end, true, st).value, end)
    ensures ContentsOnce(m, id, i, end, strict, st, Places(all, keep), keep)
  {
    hide CustomSection, CustomOnce;
    if id == 0 {
      CustomIsOnce(m, all, keep, i, end, strict, st);
    } else {
      ContentsGrows(m, id, i, end, st);
      ContentsBounds(m, id, i, end, strict, st);
      ContentsWithin(m, id, i, end, st);
      ClearBetween(all, keep, |st.syms|, i, end);
    }
  }

  lemma ContentsWithin(m: Bytes, id: Byte, i: nat, end: nat, st: State)
    requires end <= |m| && i <= end && id != 0 && Contents(m, id, i, end, true, st).Ok?
    ensures Contents(m, id, i, end, true, st).i <= end
  {
  }

  lemma SectionIsOnce(m: Bytes, all: seq<Symbol>, keep: set<Bytes>, i: nat, end: nat, strict: bool, st: State)
    requires end <= |m| && i < end && Section(m, i, end, true, st).Ok?
    requires Upto(all, st, i) && Upto(all, Section(m, i, end, true, st).value, Section(m, i, end, true, st).i)
    ensures SectionOnce(m, i, end, strict, st, Places(all, keep), keep)
  {
    hide Uleb, Contents, ContentsOnce;
    var r := Section(m, i, end, true, st);
    var size := U64(m, i + 1, end);
    ContentsGrows(m, m[i], size.i, r.i, st);
    UptoBefore(all, st, r.value, size.i, r.i);
    ClearBetween(all, keep, |st.syms|, i, size.i);
    ContentsIsOnce(m, all, keep, m[i], size.i, r.i, strict, st);
  }

  lemma {:induction false} SectionLoopIsOnce(m: Bytes, all: seq<Symbol>, keep: set<Bytes>,
                                             i: nat, end: nat, strict: bool, st: State)
    requires end <= |m| && i <= end && SectionLoop(m, i, end, true, st).Ok?
    requires Upto(all, st, i) && Upto(all, SectionLoop(m, i, end, true, st).value, end)
    ensures SectionLoopOnce(m, i, end, strict, st, Places(all, keep), keep)
    decreases end - i
  {
    hide Section, SectionOnce;
    if i < end {
      var r := Section(m, i, end, true, st);
      SectionGrows(m, i, end, st);
      SectionLoopGrows(m, r.i, end, r.value);
      UptoBefore(all, r.value, SectionLoop(m, i, end, true, st).value, r.i, end);
      SectionIsOnce(m, all, keep, i, end, strict, st);
      SectionBounds(m, i, end, strict, st);
      SectionLoopIsOnce(m, all, keep, r.i, end, strict, r.value);
    }
  }

  /** An object whose parts stay within their bounds is read once, whatever is to be patched. */
  lemma WithinBoundsIsReadOnce(m: Bytes, len: nat, strict: bool, keep: set<Bytes>)
    requires len <= |m| && Symbols(m, len, true).Ok?
    ensures ReadOnce(m, len, strict, keep)
  {
    hide SectionLoop, SectionLoopOnce;
    var all := Symbols(m, len, true).value;
    SectionLoopBounds(m, 8, len, strict, EMPTY);
    SectionLoopGrows(m, 8, len, EMPTY);
    assert Grows(EMPTY, SectionLoop(m, 8, len, true, EMPTY).value, 8, len);
    SectionLoopIsOnce(m, all, keep, 8, len, strict, EMPTY);
  }

  /** So localizing commutes with reading on every such object, whichever bounds the patched one is read with. */
  lemma LocalizingCommutes(m: Bytes, m': Bytes, len: nat, keep: set<Bytes>, strict: bool)
    requires len <= |m| && Symbols(m, len, true).Ok?
    requires Patched(m, m', Symbols(m, len, true).value, keep)
    ensures Symbols(m', len, strict) == Ok(RelabelAll(Symbols(m, len, true).value, keep), Symbols(m, len, true).i)
  {
    WithinBoundsIsReadOnce(m, len, true, keep);
    ReadOnceCommutes(m, m', len, keep, true, strict);
  }

  /** The symbols to be made local: functions and data that are defined here, have a name, and are not to be kept. */
  predicate ToLocalize(s: Symbol, keep: set<Bytes>) {
    && (s.kind == 0 || s.kind == 1) && (s.flags / 16) % 2 == 0 && s.name != [] && s.name !in keep
  }

  /**
   What localizing does to each symbol of an object: afterwards it is local if it was, or if it is one of
   those to be made local; no other flag changes, nor its kind, name, place or signature.
   */
  lemma LocalizedSymbols(m: Bytes, m': Bytes, len: nat, keep: set<Bytes>, strict: bool, t: nat)
    requires len <= |m| && Symbols(m, len, true).Ok? && Patched(m, m', Symbols(m, len, true).value, keep)
    requires t < |Symbols(m, len, true).value|
    ensures Symbols(m', len, strict).Ok? && |Symbols(m', len, strict).value| == |Symbols(m, len, true).value|
    ensures var was, now := Symbols(m, len, true).value[t], Symbols(m', len, strict).value[t];
            && ((now.flags / 2) % 2 == 1 <==> (was.flags / 2) % 2 == 1 || ToLocalize(was, keep))
            && now.flags / 4 == was.flags / 4 && now.flags % 2 == was.flags % 2
            && now == was.(flags := now.flags)
  {
    hide Symbols, Patched;
    LocalizingCommutes(m, m', len, keep, strict);
  }
}
