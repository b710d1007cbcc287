/**
 Descriptor tables and open files. Closing a descriptor and giving up its reference are two
 steps, and so are giving up the last reference and releasing the file; other processes may
 act in between.
 */
module Files {
  import opened Pipes

  type Pid = nat
  type OfId = nat
  type PipeId = nat
  type Fd = int

  const FD_BASE: int := 0x100000

  datatype Kind = ReadEnd(pipe: PipeId) | WriteEnd(pipe: PipeId) | Plain

  /** released counts calls of the file's release. */
  datatype OpenFile = OpenFile(kind: Kind, refs: int, released: nat)

  datatype Entry = Entry(of: OfId, cloexec: bool)

  type Table = map<Fd, Entry>

  /** A pipe and the open files of its two ends. */
  datatype Ends = Ends(r: OfId, w: OfId, pipe: Pipe)

  /** unrefs: references about to be given up; releases: files about to be released. */
  datatype State = State(files: map<OfId, OpenFile>, tables: map<Pid, Table>, pipes: map<PipeId, Ends>,
                         unrefs: multiset<OfId>, releases: multiset<OfId>)

  // ---- the invariant ----

  /** A descriptor of a process. */
  datatype Desc = Desc(p: Pid, fd: Fd)

  /** Descriptor x refers to of. */
  predicate Refers(tables: map<Pid, Table>, x: Desc, of: OfId) {
    x.p in tables && x.fd in tables[x.p] && tables[x.p][x.fd].of == of
  }

  /** The descriptors, of all processes, that refer to of. */
  ghost function Holders(tables: map<Pid, Table>, of: OfId): (h: set<Desc>)
    ensures forall x :: x in h <==> Refers(tables, x, of)
  {
    set p, fd | p in tables && fd in tables[p] && tables[p][fd].of == of :: Desc(p, fd)
  }

  lemma SameHolders(t: map<Pid, Table>, t': map<Pid, Table>, of: OfId)
    requires forall x :: Refers(t', x, of) <==> Refers(t, x, of)
    ensures Holders(t', of) == Holders(t, of)
  {
    hide Holders;
  }

  /** refs counts descriptors and references about to be given up; release happens once, when there are none. */
  ghost predicate FileOk(s: State, of: OfId)
    requires of in s.files
  {
    var f := s.files[of];
    && f.refs == |Holders(s.tables, of)| + s.unrefs[of]
    && f.released + s.releases[of] == if f.refs == 0 then 1 else 0
  }

  ghost predicate PipeOk(files: map<OfId, OpenFile>, pp: PipeId, e: Ends) {
    && e.r in files && files[e.r].kind == ReadEnd(pp) && e.w in files && files[e.w].kind == WriteEnd(pp)
    && e.pipe.readers == 1 - files[e.r].released
    && e.pipe.writers == 1 - files[e.w].released
    && Fifo(e.pipe)
  }

  ghost predicate KindOk(pipes: map<PipeId, Ends>, of: OfId, kind: Kind) {
    match kind
    case ReadEnd(pp) => pp in pipes && pipes[pp].r == of
    case WriteEnd(pp) => pp in pipes && pipes[pp].w == of
    case Plain => true
  }

  /** A pipe's counts say whether its ends have been released, and each end belongs to its pipe. */
  ghost predicate PipesOk(files: map<OfId, OpenFile>, pipes: map<PipeId, Ends>) {
    && (forall of :: of in files ==> KindOk(pipes, of, files[of].kind))
    && (forall pp :: pp in pipes ==> PipeOk(files, pp, pipes[pp]))
  }

  /** References come and go without the pipes noticing. */
  lemma RefsDoNotMatter(files: map<OfId, OpenFile>, files': map<OfId, OpenFile>, pipes: map<PipeId, Ends>)
    requires PipesOk(files, pipes) && files'.Keys == files.Keys
    requires forall of :: of in files ==> files'[of].kind == files[of].kind && files'[of].released == files[of].released
    ensures PipesOk(files', pipes)
  {
    hide Fifo;
    forall of | of in files' ensures KindOk(pipes, of, files'[of].kind) { assert KindOk(pipes, of, files[of].kind); }
    forall pp | pp in pipes ensures PipeOk(files', pp, pipes[pp]) { assert PipeOk(files, pp, pipes[pp]); }
  }

  ghost predicate Known(s: State) {
    && (forall p, fd :: p in s.tables && fd in s.tables[p] ==> s.tables[p][fd].of in s.files)
    && (forall of :: of in s.unrefs ==> of in s.files)
    && (forall of :: of in s.releases ==> of in s.files)
  }

  ghost predicate Inv(s: State) {
    && Known(s)
    && (forall of :: of in s.files ==> FileOk(s, of))
    && PipesOk(s.files, s.pipes)
  }

  // ---- steps ----

  datatype Step =
    | NewProcess(p: Pid)
    | NewFile(p: Pid, fd: Fd, of: OfId, cloexec: bool)
    | NewPipe(p: Pid, pp: PipeId, r: OfId, w: OfId, rfd: Fd, wfd: Fd)
    | Add(p: Pid, of: OfId, cloexec: bool)
    | Install(p: Pid, fd: Fd, of: OfId, cloexec: bool)
    | Close(p: Pid, fd: Fd)
    | SetCloexec(p: Pid, fd: Fd, cloexec: bool)
    | Inherit(p: Pid, child: Pid, fd: Fd)
    | Unref(of: OfId)
    | Release(of: OfId)
    | PipeRead(pp: PipeId, n: nat)
    | PipeWrite(pp: PipeId, b: seq<Byte>)

  /** Some descriptor of p refers to of. */
  predicate HasOpen(s: State, p: Pid, of: OfId) {
    p in s.tables && exists fd :: fd in s.tables[p] && s.tables[p][fd].of == of
  }

  /** fd is the lowest number from FD_BASE up that t does not use. */
  predicate IsLowestFree(t: Table, fd: Fd) {
    FD_BASE <= fd && fd !in t && forall k :: FD_BASE <= k < fd ==> k in t
  }

  /** What a process needs for a step: a descriptor it duplicates or inherits from is open in it. */
  predicate Enabled(s: State, step: Step) {
    match step
    case NewProcess(p) => p !in s.tables
    case NewFile(p, fd, of, _) => p in s.tables && fd !in s.tables[p] && of !in s.files
    case NewPipe(p, pp, r, w, rfd, wfd) =>
      && p in s.tables && pp !in s.pipes && r !in s.files && w !in s.files && r != w
      && rfd != wfd && rfd !in s.tables[p] && wfd !in s.tables[p]
    case Add(p, of, _) => HasOpen(s, p, of)
    case Install(p, fd, of, _) => HasOpen(s, p, of)
    case Close(p, fd) => p in s.tables
    case SetCloexec(p, fd, _) => p in s.tables
    case Inherit(p, c, fd) =>
      && p in s.tables && c in s.tables && c != p
      && fd in s.tables[p] && !s.tables[p][fd].cloexec && fd !in s.tables[c]
    case Unref(of) => of in s.unrefs && of in s.files
    case Release(of) => of in s.releases && of in s.files
    case PipeRead(pp, _) => pp in s.pipes
    case PipeWrite(pp, _) => pp in s.pipes
  }

  /** of in slot fd of p, with the reference it takes. */
  function Put(s: State, p: Pid, fd: Fd, of: OfId, cloexec: bool): State
    requires p in s.tables && of in s.files
  {
    s.(tables := s.tables[p := s.tables[p][fd := Entry(of, cloexec)]],
       files := s.files[of := s.files[of].(refs := s.files[of].refs + 1)])
  }

  /** Slot fd of p emptied, its reference still to be given up. */
  function Take(s: State, p: Pid, fd: Fd): State
    requires p in s.tables && fd in s.tables[p]
  {
    s.(tables := s.tables[p := s.tables[p] - {fd}], unrefs := s.unrefs + multiset{s.tables[p][fd].of})
  }

  function LowestFree(t: Table): (fd: Fd)
    ensures IsLowestFree(t, fd)
  {
    LowestFreeExists(t, FD_BASE);
    var fd :| IsLowestFree(t, fd);
    fd
  }

  lemma {:induction false} LowestFreeExists(t: Table, from: Fd)
    requires FD_BASE <= from && forall k :: FD_BASE <= k < from ==> k in t
    ensures exists fd :: IsLowestFree(t, fd)
    decreases set k | k in t && from <= k
  {
    if from in t {
      var above, rest := set k | k in t && from <= k, set k | k in t && from + 1 <= k;
      assert from in above && from !in rest && rest <= above;
      LowestFreeExists(t, from + 1);
    } else {
      assert IsLowestFree(t, from);
    }
  }

  /** The pipes after the release of a file of the given kind. */
  function ReleasedPipes(pipes: map<PipeId, Ends>, of: OfId, kind: Kind): map<PipeId, Ends> {
    if kind == Plain || kind.pipe !in pipes then pipes
    else pipes[kind.pipe := PipeReleased(pipes[kind.pipe], of)]
  }

  function PipeReleased(e: Ends, of: OfId): Ends {
    if of == e.r then e.(pipe := e.pipe.(readers := e.pipe.readers - 1))
    else e.(pipe := e.pipe.(writers := e.pipe.writers - 1))
  }

  /** One reference given up; the last one makes the release due. */
  function DropRef(s: State, of: OfId): State
    requires of in s.files
  {
    var refs := s.files[of].refs - 1;
    s.(unrefs := s.unrefs - multiset{of}, files := s.files[of := s.files[of].(refs := refs)],
       releases := if refs == 0 then s.releases + multiset{of} else s.releases)
  }

  function Released(s: State, of: OfId): State
    requires of in s.files
  {
    s.(releases := s.releases - multiset{of},
       files := s.files[of := s.files[of].(released := s.files[of].released + 1)],
       pipes := ReleasedPipes(s.pipes, of, s.files[of].kind))
  }

  function Apply(s: State, step: Step): State
    requires Enabled(s, step) && (forall p, fd :: p in s.tables && fd in s.tables[p] ==> s.tables[p][fd].of in s.files)
  {
    match step
    case NewProcess(p) => s.(tables := s.tables[p := map[]])
    case NewFile(p, fd, of, cloexec) =>
      Put(s.(files := s.files[of := OpenFile(Plain, 0, 0)]), p, fd, of, cloexec)
    case NewPipe(p, pp, r, w, rfd, wfd) =>
      var s1 := s.(files := s.files[r := OpenFile(ReadEnd(pp), 0, 0)][w := OpenFile(WriteEnd(pp), 0, 0)],
                   pipes := s.pipes[pp := Ends(r, w, Pipe([], 1, 1, [], []))]);
      Put(Put(s1, p, rfd, r, false), p, wfd, w, false)
    case Add(p, of, cloexec) => Put(s, p, LowestFree(s.tables[p]), of, cloexec)
    case Install(p, fd, of, cloexec) =>
      if fd in s.tables[p] then Put(Take(s, p, fd), p, fd, of, cloexec) else Put(s, p, fd, of, cloexec)
    case Close(p, fd) => if fd in s.tables[p] then Take(s, p, fd) else s
    case SetCloexec(p, fd, cloexec) =>
      if fd !in s.tables[p] then s
      else s.(tables := s.tables[p := s.tables[p][fd := s.tables[p][fd].(cloexec := cloexec)]])
    case Inherit(p, c, fd) => Put(s, c, fd, s.tables[p][fd].of, false)
    case Unref(of) => DropRef(s, of)
    case Release(of) => Released(s, of)
    case PipeRead(pp, n) => s.(pipes := s.pipes[pp := s.pipes[pp].(pipe := AfterRead(s.pipes[pp].pipe, n))])
    case PipeWrite(pp, b) => s.(pipes := s.pipes[pp := s.pipes[pp].(pipe := AfterWrite(s.pipes[pp].pipe, b))])
  }

  // ---- every step keeps the invariant ----

  lemma HoldersPut(tables: map<Pid, Table>, p: Pid, fd: Fd, e: Entry, of: OfId)
    requires p in tables && fd !in tables[p]
    ensures |Holders(tables[p := tables[p][fd := e]], of)| == |Holders(tables, of)| + if e.of == of then 1 else 0
  {
    hide Holders;
    var t' := tables[p := tables[p][fd := e]];
    assert forall x :: Refers(t', x, of) <==> if x == Desc(p, fd) then e.of == of else Refers(tables, x, of);
    if e.of == of {
      assert Holders(t', of) == Holders(tables, of) + {Desc(p, fd)};
    } else {
      assert Holders(t', of) == Holders(tables, of);
    }
  }

  lemma HoldersTake(tables: map<Pid, Table>, p: Pid, fd: Fd, of: OfId)
    requires p in tables && fd in tables[p]
    ensures |Holders(tables[p := tables[p] - {fd}], of)| ==
            |Holders(tables, of)| - if tables[p][fd].of == of then 1 else 0
  {
    hide Holders;
    var t' := tables[p := tables[p] - {fd}];
    assert forall x :: Refers(t', x, of) <==> x != Desc(p, fd) && Refers(tables, x, of);
    if tables[p][fd].of == of {
      assert Holders(tables, of) == Holders(t', of) + {Desc(p, fd)};
    } else {
      assert Holders(t', of) == Holders(tables, of);
    }
  }

  /** Everything, where the files in unused have been made and nothing refers to them yet. */
  ghost predicate InvBut(s: State, unused: set<OfId>) {
    && Known(s)
    && (forall of :: of in s.files ==> if of in unused then UnusedOk(s, of) else FileOk(s, of))
    && PipesOk(s.files, s.pipes)
  }

  ghost predicate UnusedOk(s: State, of: OfId)
    requires of in s.files
  {
    && s.files[of].refs == 0 && s.files[of].released == 0
    && Holders(s.tables, of) == {} && s.unrefs[of] == 0 && s.releases[of] == 0
  }

  /** A reference to a live or new file is taken with its descriptor. */
  lemma PutInv(s: State, unused: set<OfId>, p: Pid, fd: Fd, of: OfId, cloexec: bool)
    requires InvBut(s, unused) && p in s.tables && fd !in s.tables[p] && of in s.files
    requires of in unused || s.files[of].refs > 0
    ensures InvBut(Put(s, p, fd, of, cloexec), unused - {of})
  {
    hide Holders, PipesOk;
    var s' := Put(s, p, fd, of, cloexec);
    forall x | x in s'.files ensures if x in unused - {of} then UnusedOk(s', x) else FileOk(s', x) {
      HoldersPut(s.tables, p, fd, Entry(of, cloexec), x);
      assert if x in unused then UnusedOk(s, x) else FileOk(s, x);
    }
    RefsDoNotMatter(s.files, s'.files, s.pipes);
  }

  lemma TakeInv(s: State, p: Pid, fd: Fd)
    requires Inv(s) && p in s.tables && fd in s.tables[p]
    ensures Inv(Take(s, p, fd))
  {
    hide Holders, PipesOk;
    var s' := Take(s, p, fd);
    forall x | x in s'.files ensures FileOk(s', x) {
      HoldersTake(s.tables, p, fd, x);
      assert FileOk(s, x);
    }
  }

  lemma HeldHasRefs(s: State, p: Pid, fd: Fd)
    requires Inv(s) && p in s.tables && fd in s.tables[p]
    ensures s.tables[p][fd].of in s.files && s.files[s.tables[p][fd].of].refs > 0
  {
    var of := s.tables[p][fd].of;
    hide Holders;
    assert FileOk(s, of);
    assert Refers(s.tables, Desc(p, fd), of);
  }

  lemma NewFileInv(s: State, p: Pid, fd: Fd, of: OfId, cloexec: bool)
    requires Inv(s) && Enabled(s, NewFile(p, fd, of, cloexec))
    ensures Inv(Apply(s, NewFile(p, fd, of, cloexec)))
  {
    hide FileOk, UnusedOk, PipeOk;
    var s1 := s.(files := s.files[of := OpenFile(Plain, 0, 0)]);
    assert PipesOk(s1.files, s1.pipes) by {
      forall pp | pp in s.pipes ensures PipeOk(s1.files, pp, s.pipes[pp]) {
        PipeStays(s.files, s1.files, pp, s.pipes[pp]);
      }
    }
    UnusedInv(s, s1, {of});
    PutInv(s1, {of}, p, fd, of, cloexec);
    assert {of} - {of} == {};
  }

  lemma PipeStays(files: map<OfId, OpenFile>, files': map<OfId, OpenFile>, pp: PipeId, e: Ends)
    requires PipeOk(files, pp, e) && forall of :: of in files ==> of in files' && files'[of] == files[of]
    ensures PipeOk(files', pp, e)
  {
  }

  lemma NewPipeInv(s: State, p: Pid, pp: PipeId, r: OfId, w: OfId, rfd: Fd, wfd: Fd)
    requires Inv(s) && Enabled(s, NewPipe(p, pp, r, w, rfd, wfd))
    ensures Inv(Apply(s, NewPipe(p, pp, r, w, rfd, wfd)))
  {
    hide FileOk, UnusedOk, PipeOk;
    var s1 := s.(files := s.files[r := OpenFile(ReadEnd(pp), 0, 0)][w := OpenFile(WriteEnd(pp), 0, 0)],
                 pipes := s.pipes[pp := Ends(r, w, Pipe([], 1, 1, [], []))]);
    NewPipeOk(s, s1, pp, r, w);
    UnusedInv(s, s1, {r, w});
    PutInv(s1, {r, w}, p, rfd, r, false);
    assert {r, w} - {r} == {w} && {w} - {w} == {};
    PutInv(Put(s1, p, rfd, r, false), {w}, p, wfd, w, false);
  }

  lemma NewPipeOk(s: State, s1: State, pp: PipeId, r: OfId, w: OfId)
    requires PipesOk(s.files, s.pipes) && pp !in s.pipes && r !in s.files && w !in s.files && r != w
    requires s1.files == s.files[r := OpenFile(ReadEnd(pp), 0, 0)][w := OpenFile(WriteEnd(pp), 0, 0)]
    requires s1.pipes == s.pipes[pp := Ends(r, w, Pipe([], 1, 1, [], []))]
    ensures PipesOk(s1.files, s1.pipes)
  {
    forall x | x in s1.pipes ensures PipeOk(s1.files, x, s1.pipes[x]) {
      if x != pp { assert PipeOk(s.files, x, s.pipes[x]); }
    }
    forall of | of in s1.files ensures KindOk(s1.pipes, of, s1.files[of].kind) {
      if of in s.files { assert KindOk(s.pipes, of, s.files[of].kind); }
    }
  }

  lemma NobodyHolds(s: State, of: OfId)
    requires Known(s) && of !in s.files
    ensures Holders(s.tables, of) == {} && s.unrefs[of] == 0 && s.releases[of] == 0
  {
    hide Holders;
    assert forall x :: !Refers(s.tables, x, of);
    assert Holders(s.tables, of) == {};
  }

  /** New open files before anything refers to them. */
  lemma UnusedInv(s: State, s': State, unused: set<OfId>)
    requires Inv(s) && unused !! s.files.Keys && s'.tables == s.tables && s'.unrefs == s.unrefs
    requires s'.releases == s.releases
    requires s'.files.Keys == s.files.Keys + unused && forall of :: of in s.files ==> s'.files[of] == s.files[of]
    requires forall of :: of in unused ==> s'.files[of].refs == 0 && s'.files[of].released == 0
    requires PipesOk(s'.files, s'.pipes)
    ensures InvBut(s', unused)
  {
    hide Holders, PipesOk;
    forall of | of in s'.files ensures if of in unused then UnusedOk(s', of) else FileOk(s', of) {
      if of in unused { NobodyHolds(s, of); } else { assert FileOk(s, of); }
    }
  }

  /** A descriptor for a file the process has open already. */
  lemma PutHeldInv(s: State, q: Pid, p: Pid, fd: Fd, of: OfId, cloexec: bool)
    requires Inv(s) && HasOpen(s, q, of) && p in s.tables && fd !in s.tables[p]
    ensures of in s.files && Inv(Put(s, p, fd, of, cloexec))
  {
    hide FileOk;
    var k :| k in s.tables[q] && s.tables[q][k].of == of;
    HeldHasRefs(s, q, k);
    PutInv(s, {}, p, fd, of, cloexec);
    assert {} - {of} == {};
  }

  /** dup2 onto a used slot: the file it takes stays alive, even if it is the one replaced. */
  lemma ReplaceInv(s: State, p: Pid, fd: Fd, of: OfId, cloexec: bool)
    requires Inv(s) && HasOpen(s, p, of) && fd in s.tables[p]
    ensures of in s.files && Inv(Put(Take(s, p, fd), p, fd, of, cloexec))
  {
    hide FileOk;
    var k :| k in s.tables[p] && s.tables[p][k].of == of;
    HeldHasRefs(s, p, k);
    TakeInv(s, p, fd);
    PutInv(Take(s, p, fd), {}, p, fd, of, cloexec);
    assert {} - {of} == {};
  }

  /** A change of the tables that keeps every descriptor's file. */
  lemma TablesInv(s: State, tables: map<Pid, Table>)
    requires Inv(s)
    requires forall x: Desc, of :: Refers(tables, x, of) <==> Refers(s.tables, x, of)
    ensures Inv(s.(tables := tables))
  {
    hide Holders, PipesOk;
    var s' := s.(tables := tables);
    forall x | x in s'.files ensures FileOk(s', x) {
      assert FileOk(s, x);
      SameHolders(s.tables, tables, x);
    }
    forall p, fd | p in tables && fd in tables[p] ensures tables[p][fd].of in s.files {
      assert Refers(tables, Desc(p, fd), tables[p][fd].of);
    }
  }

  lemma UnrefInv(s: State, of: OfId)
    requires Inv(s) && of in s.unrefs && of in s.files
    ensures Inv(DropRef(s, of))
  {
    hide Holders, PipesOk, FileOk;
    var s' := DropRef(s, of);
    forall x | x in s'.files ensures FileOk(s', x) { UnrefFile(s, of, x); }
    RefsDoNotMatter(s.files, s'.files, s.pipes);
    KnownFewer(s, s', of);
  }

  lemma UnrefFile(s: State, of: OfId, x: OfId)
    requires of in s.unrefs && of in s.files && x in s.files && FileOk(s, x)
    ensures FileOk(DropRef(s, of), x)
  {
    hide Holders;
  }

  /** No new file is waiting to be given up or released. */
  lemma KnownFewer(s: State, s': State, of: OfId)
    requires Known(s) && of in s.files && s'.tables == s.tables && s'.files.Keys == s.files.Keys
    requires s'.unrefs <= s.unrefs && s'.releases <= s.releases + multiset{of}
    ensures Known(s')
  {
    forall x | x in s'.releases ensures x in s.files {
      assert x in s.releases + multiset{of};
    }
  }

  lemma ReleaseInv(s: State, of: OfId)
    requires Inv(s) && of in s.releases && of in s.files
    ensures Inv(Released(s, of))
  {
    hide Holders, PipesOk, FileOk;
    var s' := Released(s, of);
    forall x | x in s'.files ensures FileOk(s', x) { ReleaseFile(s, of, x); }
    ReleasePipes(s.files, s.pipes, of);
    KnownFewer(s, s', of);
  }

  lemma ReleaseFile(s: State, of: OfId, x: OfId)
    requires of in s.releases && of in s.files && x in s.files && FileOk(s, x)
    ensures FileOk(Released(s, of), x)
  {
    hide Holders;
  }

  lemma ReleasePipes(files: map<OfId, OpenFile>, pipes: map<PipeId, Ends>, of: OfId)
    requires PipesOk(files, pipes) && of in files
    ensures PipesOk(files[of := files[of].(released := files[of].released + 1)],
                    ReleasedPipes(pipes, of, files[of].kind))
  {
    hide Fifo;
    var files' := files[of := files[of].(released := files[of].released + 1)];
    var pipes' := ReleasedPipes(pipes, of, files[of].kind);
    assert KindOk(pipes, of, files[of].kind);
    forall x | x in files' ensures KindOk(pipes', x, files'[x].kind) { assert KindOk(pipes, x, files[x].kind); }
    forall pp | pp in pipes' ensures PipeOk(files', pp, pipes'[pp]) {
      assert PipeOk(files, pp, pipes[pp]);
      FifoCounts(pipes[pp].pipe, pipes'[pp].pipe);
    }
  }

  /** unref as a whole: the reference goes, and if it was the last the file is released. */
  function Unreferenced(s: State, of: OfId): State
    requires of in s.files
  {
    var s1 := DropRef(s, of);
    if s1.files[of].refs == 0 then Released(s1, of) else s1
  }

  lemma UnreferencedInv(s: State, of: OfId)
    requires Inv(s) && of in s.unrefs && of in s.files
    ensures var s' := Unreferenced(s, of);
            && Inv(s') && s'.tables == s.tables && s'.files.Keys == s.files.Keys
            && s'.unrefs == s.unrefs - multiset{of} && s'.releases == s.releases
            && s'.files[of].released == s.files[of].released + if s.files[of].refs == 1 then 1 else 0
  {
    hide FileOk, PipesOk, Known;
    UnrefInv(s, of);
    var s1 := DropRef(s, of);
    if s1.files[of].refs == 0 {
      ReleaseInv(s1, of);
      assert s.releases + multiset{of} - multiset{of} == s.releases;
    }
  }

  lemma FifoCounts(a: Pipe, b: Pipe)
    requires b == a.(readers := b.readers, writers := b.writers)
    ensures Fifo(b) == Fifo(a)
  {
  }

  lemma PipeStepInv(s: State, pp: PipeId, pipe: Pipe)
    requires Inv(s) && pp in s.pipes && Fifo(pipe)
    requires pipe.readers == s.pipes[pp].pipe.readers && pipe.writers == s.pipes[pp].pipe.writers
    ensures Inv(s.(pipes := s.pipes[pp := s.pipes[pp].(pipe := pipe)]))
  {
    hide Holders, Fifo, Known;
    var s' := s.(pipes := s.pipes[pp := s.pipes[pp].(pipe := pipe)]);
    KnownSame(s, s');
    forall x | x in s'.files ensures FileOk(s', x) { assert FileOk(s, x); }
    forall x | x in s'.files ensures KindOk(s'.pipes, x, s'.files[x].kind) {
      assert KindOk(s.pipes, x, s.files[x].kind);
    }
    forall q | q in s'.pipes ensures PipeOk(s'.files, q, s'.pipes[q]) { assert PipeOk(s.files, q, s.pipes[q]); }
  }

  lemma KnownSame(s: State, s': State)
    requires Known(s) && s'.files == s.files && s'.tables == s.tables && s'.unrefs == s.unrefs
    requires s'.releases == s.releases
    ensures Known(s')
  {
  }

  /** Every step keeps the invariant. */
  lemma StepInv(s: State, step: Step)
    requires Inv(s) && Enabled(s, step)
    ensures Inv(Apply(s, step))
  {
    hide FileOk, PipesOk, Holders, AfterRead, AfterWrite;
    match step
    case NewProcess(p) =>
      TablesInv(s, Apply(s, step).tables);
    case NewFile(p, fd, of, cloexec) => NewFileInv(s, p, fd, of, cloexec);
    case NewPipe(p, pp, r, w, rfd, wfd) => NewPipeInv(s, p, pp, r, w, rfd, wfd);
    case Add(p, of, cloexec) => PutHeldInv(s, p, p, LowestFree(s.tables[p]), of, cloexec);
    case Install(p, fd, of, cloexec) =>
      if fd in s.tables[p] { ReplaceInv(s, p, fd, of, cloexec); } else { PutHeldInv(s, p, p, fd, of, cloexec); }
    case Close(p, fd) => if fd in s.tables[p] { TakeInv(s, p, fd); }
    case SetCloexec(p, fd, cloexec) => if fd in s.tables[p] { TablesInv(s, Apply(s, step).tables); }
    case Inherit(p, c, fd) => PutHeldInv(s, p, c, fd, s.tables[p][fd].of, false);
    case Unref(of) => UnrefInv(s, of);
    case Release(of) => ReleaseInv(s, of);
    case PipeRead(pp, n) => PipeReadInv(s, pp, n);
    case PipeWrite(pp, b) => PipeWriteInv(s, pp, b);
  }

  lemma PipeReadInv(s: State, pp: PipeId, n: nat)
    requires Inv(s) && Enabled(s, PipeRead(pp, n))
    ensures Inv(Apply(s, PipeRead(pp, n)))
  {
    hide Inv;
    PipeHasFifo(s, pp);
    ReadFifo(s.pipes[pp].pipe, n);
    PipeStepInv(s, pp, AfterRead(s.pipes[pp].pipe, n));
  }

  lemma PipeWriteInv(s: State, pp: PipeId, b: seq<Byte>)
    requires Inv(s) && Enabled(s, PipeWrite(pp, b))
    ensures Inv(Apply(s, PipeWrite(pp, b)))
  {
    hide Inv;
    PipeHasFifo(s, pp);
    WriteFifo(s.pipes[pp].pipe, b);
    PipeStepInv(s, pp, AfterWrite(s.pipes[pp].pipe, b));
  }

  lemma PipeHasFifo(s: State, pp: PipeId)
    requires Inv(s) && pp in s.pipes
    ensures Fifo(s.pipes[pp].pipe)
  {
    assert PipeOk(s.files, pp, s.pipes[pp]);
  }

  // ---- runs ----

  const START := State(map[], map[], map[], multiset{}, multiset{})

  ghost predicate StepsTo(s: State, step: Step, s': State) {
    Enabled(s, step) && (Inv(s) ==> s' == Apply(s, step))
  }

  ghost predicate IsRun(run: seq<State>, steps: seq<Step>) {
    && |run| == |steps| + 1 && run[0] == START
    && forall i :: 0 <= i < |steps| ==> StepsTo(run[i], steps[i], run[i + 1])
  }

  lemma {:induction false} RunInv(run: seq<State>, steps: seq<Step>, i: nat)
    requires IsRun(run, steps) && i < |run|
    ensures Inv(run[i])
    decreases i
  {
    if i > 0 {
      RunInv(run, steps, i - 1);
      assert StepsTo(run[i - 1], steps[i - 1], run[i]);
      StepInv(run[i - 1], steps[i - 1]);
    }
  }

  /**
   Over every run of all processes: refs is the number of descriptors and of references about to
   be given up; release runs at most once, only when there are none, and has run or is about to
   as soon as there are none.
   */
  lemma RefsExact(run: seq<State>, steps: seq<Step>, i: nat, of: OfId)
    requires IsRun(run, steps) && i < |run| && of in run[i].files
    ensures var s := run[i];
            && s.files[of].refs == |Holders(s.tables, of)| + s.unrefs[of]
            && s.files[of].released <= 1
            && (s.files[of].released + s.releases[of] == 1 <==> Holders(s.tables, of) == {} && s.unrefs[of] == 0)
  {
    RunInv(run, steps, i);
    assert FileOk(run[i], of);
  }

  /** No descriptor of any process refers to of, and none is being closed. */
  ghost predicate Gone(s: State, of: OfId) {
    && (forall p, fd :: p in s.tables && fd in s.tables[p] ==> s.tables[p][fd].of != of)
    && s.unrefs[of] == 0 && s.releases[of] == 0
  }

  /**
   A read of at least one byte reports end of file exactly when the pipe is drained and the write
   end is gone from every process; a write reports EPIPE exactly when the read end is.
   */
  lemma EofAndEpipeExact(run: seq<State>, steps: seq<Step>, i: nat, pp: PipeId, n: nat, b: seq<Byte>)
    requires IsRun(run, steps) && i < |run| && pp in run[i].pipes && n > 0
    ensures var e := run[i].pipes[pp];
            && e.r in run[i].files && e.w in run[i].files
            && (ReadResult(e.pipe, n) == Eof <==> e.pipe.buf == [] && Gone(run[i], e.w))
            && (WriteResult(e.pipe, b) == Epipe <==> Gone(run[i], e.r))
            && e.pipe.accepted == e.pipe.delivered + e.pipe.buf
  {
    RunInv(run, steps, i);
    assert PipeOk(run[i].files, pp, run[i].pipes[pp]);
    GoneExact(run[i], run[i].pipes[pp].w);
    GoneExact(run[i], run[i].pipes[pp].r);
  }

  lemma GoneExact(s: State, of: OfId)
    requires Inv(s) && of in s.files
    ensures Gone(s, of) <==> s.files[of].released == 1
  {
    hide Holders;
    assert FileOk(s, of);
    if s.files[of].released == 1 {
      assert Holders(s.tables, of) == {};
      forall p, fd | p in s.tables && fd in s.tables[p] ensures s.tables[p][fd].of != of {
        assert !Refers(s.tables, Desc(p, fd), of);
      }
    } else if forall p, fd :: p in s.tables && fd in s.tables[p] ==> s.tables[p][fd].of != of {
      assert Holders(s.tables, of) == {};
    }
  }
}
