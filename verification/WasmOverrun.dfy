/**
 Why localizing is only right for objects whose subsections stay within their sections: an
 object that the reader accepts, and whose patched form makes the reader panic.
 */
module WasmOverrun {
  import opened WasmObj
  import opened WasmLocalize
  import opened WasmReadOnce

  /**
   A linking section of 13 bytes whose symbol table claims 9 bytes but has only 2 left. It
   defines one data symbol, whose flags, at 23, are read once more as the next section's id.
   */
  const OVERRUN: Bytes :=
    [0x00, 0x61, 0x73, 0x6d, 0x01, 0x00, 0x00, 0x00] +
    [0, 13, 7, 0x6c, 0x69, 0x6e, 0x6b, 0x69, 0x6e, 0x67, 2] +
    [8, 9, 1, 1, 0, 2, 1, 0x7f, 0, 1, 0]

  /** The symbol it defines; flags is what the byte at 23 says. */
  function TheSymbol(flags: Byte): Symbol {
    Symbol(KIND_DATA, flags, 23, [1, 0x7f], NoSig)
  }

  predicate Shape(m: Bytes, flags: Byte) {
    m == OVERRUN[23 := flags] && flags < 128 && !Bit(flags, FLAG_UNDEFINED)
  }

  lemma ReadsSymbol(m: Bytes, flags: Byte, st: State)
    requires Shape(m, flags)
    ensures OneSymbol(m, 22, 30, false, st) == Ok(TheSymbol(flags), 30)
  {
    assert U64(m, 23, 30) == Ok(flags, 24);
    assert U64(m, 24, 30) == Ok(2, 25);
    assert m[25..27] == [1, 0x7f];
    assert Name(m, 24, 30, false) == Ok([1, 0x7f], 27);
    ReadsThree(m, flags);
  }

  lemma ReadsThree(m: Bytes, flags: Byte)
    requires Shape(m, flags)
    ensures Fields(m, 27, 30, [FUleb, FUleb, FUleb]) == Ok((), 30)
  {
    var three := [FUleb, FUleb, FUleb];
    assert three[1..] == [FUleb, FUleb] && three[1..][1..] == [FUleb] && three[1..][1..][1..] == [];
    assert Fields(m, 30, 30, []) == Ok((), 30);
    assert Fields(m, 29, 30, [FUleb]) == Ok((), 30);
    assert Fields(m, 28, 30, [FUleb, FUleb]) == Ok((), 30);
  }

  lemma ReadsLinking(m: Bytes, flags: Byte)
    requires Shape(m, flags)
    ensures Section(m, 8, 30, false, EMPTY) == Ok(State([], 0, [], [TheSymbol(flags)], true), 23)
  {
    var st := EMPTY.(found := true);
    assert m[9] == 13 && m[10] == 7 && m[18] == 2 && m[19] == 8 && m[20] == 9 && m[21] == 1;
    assert U64(m, 9, 30) == Ok(13, 10) && U64(m, 10, 23) == Ok(7, 11);
    assert m[11..18] == LINKING;
    assert Name(m, 10, 23, false) == Ok(LINKING, 18);
    assert Uleb(m, 18, 23) == Ok(2, 19);
    assert U64(m, 20, 23) == Ok(9, 21) && U64(m, 21, 30) == Ok(1, 22);
    ReadsSymbol(m, flags, st);
    var st' := st.(syms := [TheSymbol(flags)]);
    assert st.syms + [TheSymbol(flags)] == [TheSymbol(flags)];
    assert SymbolLoop(m, 30, 30, false, 0, st') == Ok(st', 30);
    assert SymbolLoop(m, 22, 30, false, 1, st) == Ok(st', 30);
    assert Subsection(m, 19, 23, false, st) == Ok(st', 30);
    assert LinkingLoop(m, 30, 23, false, st') == Ok(st', 30);
    assert LinkingLoop(m, 19, 23, false, st) == Ok(st', 30);
    assert CustomSection(m, 10, 23, false, EMPTY) == Ok(st', 30);
  }

  /** The reader accepts the object. */
  lemma OverrunParses()
    ensures Symbols(OVERRUN, 30, false) == Ok([TheSymbol(0)], 30)
  {
    var m := OVERRUN;
    assert m == m[23 := 0];
    ReadsLinking(m, 0);
    var st := State([], 0, [], [TheSymbol(0)], true);
    assert U64(m, 24, 30) == Ok(2, 25) && U64(m, 25, 27) == Ok(1, 26);
    assert m[26..27] == [0x7f];
    assert CustomSection(m, 25, 27, false, st) == Ok(st, 27);
    assert Section(m, 23, 30, false, st) == Ok(st, 27);
    assert U64(m, 28, 30) == Ok(1, 29) && U64(m, 29, 30) == Ok(0, 30);
    assert m[30..30] == [];
    assert CustomSection(m, 29, 30, false, st) == Ok(st, 30);
    assert Section(m, 27, 30, false, st) == Ok(st, 30);
    assert SectionLoop(m, 30, 30, false, st) == Ok(st, 30);
    assert SectionLoop(m, 27, 30, false, st) == Ok(st, 30);
    assert SectionLoop(m, 23, 30, false, st) == Ok(st, 30);
    assert m[..8] == [0x00, 0x61, 0x73, 0x6d, 0x01, 0x00, 0x00, 0x00];
  }

  /** The patched object makes it panic. */
  lemma PatchedOverrunPanics()
    ensures Symbols(OVERRUN[23 := 2], 30, false) == Fail(Panic)
  {
    var m := OVERRUN[23 := 2];
    ReadsLinking(m, 2);
    var st := State([], 0, [], [TheSymbol(2)], true);
    assert U64(m, 24, 30) == Ok(2, 25) && U64(m, 25, 27) == Ok(1, 26) && U64(m, 26, 27) == Ok(0x7f, 27);
    assert Name(m, 26, 27, false) == Fail(Panic);
    assert Import(m, 26, 27, false) == Fail(Panic);
    assert ImportLoop(m, 26, 27, false, 1, 0) == Fail(Panic);
    assert CountedSection(m, 2, 25, 27, false, st) == Fail(Panic);
    assert Section(m, 23, 30, false, st) == Fail(Panic);
    assert SectionLoop(m, 23, 30, false, st) == Fail(Panic);
  }

  /** So the law is false of the reader as it is; the object is not read once, and does not stay within its bounds. */
  lemma OverrunBreaksLocalizing()
    ensures Symbols(OVERRUN, 30, false) == Ok([TheSymbol(0)], 30)
    ensures Patched(OVERRUN, OVERRUN[23 := 2], [TheSymbol(0)], {})
    ensures Symbols(OVERRUN[23 := 2], 30, false) == Fail(Panic)
    ensures !Symbols(OVERRUN, 30, true).Ok? && !ReadOnce(OVERRUN, 30, false, {})
  {
    hide Symbols, ReadOnce;
    OverrunParses();
    PatchedOverrunPanics();
    assert [TheSymbol(0)][0] == TheSymbol(0) && Selected(TheSymbol(0), {});
    assert forall k :: 0 <= k < 30 ==> (Patches([TheSymbol(0)], {}, k) <==> k == 23);
    if Symbols(OVERRUN, 30, true).Ok? {
      WithinBoundsIsReadOnce(OVERRUN, 30, false, {});
    }
    if ReadOnce(OVERRUN, 30, false, {}) {
      ReadOnceCommutes(OVERRUN, OVERRUN[23 := 2], 30, {}, false, false);
    }
  }
}
