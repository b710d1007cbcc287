/** Every operation on shared memory keeps the invariant, and so does every run. */
module ShmTheorems {
  import opened Common
  import opened ShmState
  import opened ShmOps

  // ---- counts ----

  lemma {:induction false} SumZero<K>(m: map<K, nat>)
    requires forall k :: k in m ==> m[k] == 0
    ensures Sum(m) == 0
    decreases |m|
  {
    if m != map[] {
      var k :| k in m;
      SumTake(m, k);
      SumZero(m - {k});
    }
  }

  lemma {:induction false} CountZero(atts: seq<Att>, s: SegId)
    requires forall k :: 0 <= k < |atts| ==> atts[k].s != s
    ensures Count(atts, s) == 0
  {
    if atts != [] {
      CountZero(atts[1..], s);
    }
  }

  lemma NobodyAttached(st: Shm, s: SegId)
    requires CountsOk(st) && s !in st.segs
    ensures Attached(st.procs, s) == 0 && Holders(st.files, s) == {}
  {
    hide SegOk;
    forall p | p in st.procs ensures Count(st.procs[p].atts, s) == 0 {
      forall k | 0 <= k < |st.procs[p].atts| ensures st.procs[p].atts[k].s != s {
        assert AttOk(st, st.procs[p].atts[k]);
      }
      CountZero(st.procs[p].atts, s);
    }
    SumZero(Counts(st.procs, s));
  }

  /** A change of the segments other than to their sizes and attachments leaves the attachments good. */
  ghost predicate SizesStay(st: Shm, st': Shm) {
    && st'.procs == st.procs
    && forall s :: s in st.segs ==> s in st'.segs && (st.segs[s].size.Some? ==> st'.segs[s].size == st.segs[s].size)
  }

  lemma AttsStay(st: Shm, st': Shm)
    requires CountsOk(st) && SizesStay(st, st')
    ensures forall p, k :: p in st'.procs && 0 <= k < |st'.procs[p].atts| ==> AttOk(st', st'.procs[p].atts[k])
  {
    hide SegOk;
    forall p, k | p in st'.procs && 0 <= k < |st'.procs[p].atts| ensures AttOk(st', st'.procs[p].atts[k]) {
      assert AttOk(st, st.procs[p].atts[k]);
    }
  }

  ghost predicate AttsOk(st: Shm) {
    forall p, k :: p in st.procs && 0 <= k < |st.procs[p].atts| ==> AttOk(st, st.procs[p].atts[k])
  }

  /** Only a segment without attachments is freed. */
  lemma MaybeFreeAtts(st: Shm, s: SegId)
    requires AttsOk(st) && s in st.segs && st.segs[s].attached == Attached(st.procs, s)
    ensures AttsOk(MaybeFree(st, s))
  {
    hide Attached;
    var st' := MaybeFree(st, s);
    forall p, k | p in st'.procs && 0 <= k < |st'.procs[p].atts| ensures AttOk(st', st'.procs[p].atts[k]) {
      assert AttOk(st, st.procs[p].atts[k]);
      AttachedPositive(st.procs, p, k);
    }
  }

  lemma NextIsNew(st: Shm)
    requires CountsOk(st)
    ensures st.next !in st.segs
  {
    assert st.next in st.segs ==> SegOk(st, st.next);
  }

  lemma NewSegmentOk(st: Shm)
    requires CountsOk(st)
    ensures CountsOk(NewSegment(st))
  {
    hide Attached;
    var st' := NewSegment(st);
    NextIsNew(st);
    NobodyAttached(st, st.next);
    forall s | s in st'.segs ensures SegOk(st', s) {
      assert s != st.next ==> SegOk(st, s);
    }
    AttsStay(st, st');
  }

  lemma SetSizeOk(st: Shm, s: SegId, size: nat)
    requires CountsOk(st) && s in st.table && st.segs[s].size.None?
    ensures CountsOk(SetSize(st, s, size))
  {
    hide Attached;
    var st' := SetSize(st, s, size);
    forall t | t in st'.segs ensures SegOk(st', t) {
      assert SegOk(st, t);
    }
    AttsStay(st, st');
  }

  /** Marking a segment removed is right as long as no name leads to it. */
  lemma SetRemovedOk(st: Shm, s: SegId)
    requires CountsOk(st) && s in st.table && forall n :: n in st.names ==> st.names[n] != s
    ensures CountsOk(SetRemoved(st, s))
  {
    hide Attached, Holders, AttOk, SegOk, MaybeFree;
    var st1 := st.(segs := st.segs[s := st.segs[s].(removed := true)]);
    var st' := SetRemoved(st, s);
    SetRemovedSegs(st, s);
    assert AttsOk(st') by {
      AttsStay(st, st1);
      MaybeFreeAtts(st1, s);
    }
  }

  lemma SetRemovedSegs(st: Shm, s: SegId)
    requires CountsOk(st) && s in st.table
    ensures var st' := SetRemoved(st, s);
            && (forall t :: t in st'.segs ==> SegOk(st', t)) && st'.segs.Keys == st.segs.Keys
            && st.table - {s} <= st'.table <= st.table && st'.names == st.names && st'.files == st.files
            && (forall t :: t in st.segs && t != s ==> st'.segs[t] == st.segs[t])
            && st.segs[s].attached == Attached(st.procs, s)
  {
    hide Attached, Holders, AttOk;
    var st1 := st.(segs := st.segs[s := st.segs[s].(removed := true)]);
    var st' := SetRemoved(st, s);
    assert SegOk(st, s);
    forall t | t in st'.segs ensures SegOk(st', t) {
      assert SegOk(st, t);
      if t == s { MaybeFreeSegOk(st1, s); }
    }
  }

  lemma HoldersAdd(files: map<FileId, SegId>, f: FileId, s: SegId, t: SegId)
    requires f !in files
    ensures |Holders(files[f := s], t)| == |Holders(files, t)| + if t == s then 1 else 0
  {
    assert Holders(files[f := s], t) == Holders(files, t) + if t == s then {f} else {};
  }

  lemma HoldersRemove(files: map<FileId, SegId>, f: FileId, t: SegId)
    requires f in files
    ensures |Holders(files - {f}, t)| == |Holders(files, t)| - if t == files[f] then 1 else 0
  {
    if t == files[f] {
      assert Holders(files, t) == Holders(files - {f}, t) + {f};
    } else {
      assert Holders(files, t) == Holders(files - {f}, t);
    }
  }

  lemma AddFileOk(st: Shm, f: FileId, s: SegId)
    requires CountsOk(st) && s in st.table && f !in st.files
    ensures CountsOk(AddFile(st, f, s))
  {
    hide Attached, Holders;
    var st' := AddFile(st, f, s);
    forall t | t in st'.segs ensures SegOk(st', t) {
      assert SegOk(st, t);
      HoldersAdd(st.files, f, s, t);
    }
    AttsStay(st, st');
  }

  lemma ReleaseOk(st: Shm, f: FileId)
    requires CountsOk(st) && f in st.files
    ensures CountsOk(Release(st, f))
  {
    hide Attached, Holders, AttOk, SegOk, MaybeFree;
    var s := st.files[f];
    var st1 := st.(segs := st.segs[s := st.segs[s].(fds := st.segs[s].fds - 1)], files := st.files - {f});
    ReleaseSegs(st, f);
    assert AttsOk(Release(st, f)) by {
      AttsStay(st, st1);
      MaybeFreeAtts(st1, s);
    }
  }

  lemma ReleaseSegs(st: Shm, f: FileId)
    requires CountsOk(st) && f in st.files
    ensures var st', s := Release(st, f), st.files[f];
            && (forall t :: t in st'.segs ==> SegOk(st', t)) && st'.segs.Keys == st.segs.Keys
            && st'.table <= st.table && st'.names == st.names && st'.files == st.files - {f}
            && (forall t :: t in st.table && !st.segs[t].removed ==> t in st'.table)
            && (forall t :: t in st.segs ==> st'.segs[t].removed == st.segs[t].removed)
            && st.segs[s].attached == Attached(st.procs, s)
  {
    hide Attached, Holders, AttOk;
    var s := st.files[f];
    var st1 := st.(segs := st.segs[s := st.segs[s].(fds := st.segs[s].fds - 1)], files := st.files - {f});
    var st' := Release(st, f);
    assert SegOk(st, s);
    FileIsHeld(st, f);
    forall t | t in st'.segs ensures SegOk(st', t) {
      assert SegOk(st, t);
      HoldersRemove(st.files, f, t);
      if t == s { MaybeFreeSegOk(st1, s); }
    }
  }

  lemma FileIsHeld(st: Shm, f: FileId)
    requires CountsOk(st) && f in st.files
    ensures st.files[f] in st.table && st.segs[st.files[f]].fds > 0
  {
    assert SegOk(st, st.files[f]);
    assert f in Holders(st.files, st.files[f]);
  }

  /** A new attachment to a segment that is still in the table. */
  lemma AppendOk(st: Shm, p: Pid, a: Att)
    requires CountsOk(st) && p in st.procs && a.s in st.table && st.segs[a.s].size.Some?
    requires a.len <= st.segs[a.s].size.value && a.addr % PAGE == 0 && a.len % PAGE == 0 && a.len > 0
    ensures CountsOk(Append(st, p, a))
  {
    hide Attached, Holders;
    var st' := Append(st, p, a);
    forall t | t in st'.segs ensures SegOk(st', t) {
      assert SegOk(st, t);
      AttachedUpdate(st.procs, p, st'.procs[p], t);
      CountConcat(st.procs[p].atts, [a], t);
      CountOne(a, t);
    }
    forall q, k | q in st'.procs && 0 <= k < |st'.procs[q].atts| ensures AttOk(st', st'.procs[q].atts[k]) {
      if q == p && k == |st.procs[p].atts| {
      } else {
        assert AttOk(st, st.procs[q].atts[k]);
      }
    }
  }

  // ---- mapping ----

  /** The new pages are in the range, and the others are as before. */
  lemma MapRangePages(pr: Proc, s: SegId, size: nat, addr: nat, len: nat, mmapOk: bool, page: nat)
    requires MapRange(pr, s, size, addr, len, mmapOk).Some?
    ensures var pages := MapRange(pr, s, size, addr, len, mmapOk).value.pages;
            if InRange(page, addr, len) then page in pages && pages[page] == (s, page - addr / PAGE)
            else page in pages <==> page in pr.pages && pages[page] == pr.pages[page]
  {
    assert addr == addr / PAGE * PAGE && addr + len == (addr + len) / PAGE * PAGE;
    assert InRange(page, addr, len) <==> addr / PAGE <= page < (addr + len) / PAGE;
  }

  /** An attachment that covers a page outside the range is not within it, so it is kept. */
  lemma CoverKept(atts: seq<Att>, addr: nat, len: nat, page: nat, v: (SegId, nat))
    requires CoveredAt(atts, page, v) && !InRange(page, addr, len)
    ensures CoveredAt(Kept(atts, addr, len), page, v)
  {
    var k :| 0 <= k < |atts| && Explains(atts[k], page, v);
    KeptExact(atts, addr, len, atts[k]);
    var j :| 0 <= j < |Kept(atts, addr, len)| && Kept(atts, addr, len)[j] == atts[k];
  }

  /** The mapped process after mapLocked: the kept attachments and the new one. */
  lemma MapCovers(pr: Proc, s: SegId, size: nat, addr: nat, len: nat, mmapOk: bool)
    requires Covered(pr) && MapRange(pr, s, size, addr, len, mmapOk).Some?
    ensures Covered(MapRange(pr, s, size, addr, len, mmapOk).value
                    .(atts := Kept(pr.atts, addr, len) + [Att(addr, len, s)]))
  {
    var pr' := MapRange(pr, s, size, addr, len, mmapOk).value;
    var kept := Kept(pr.atts, addr, len);
    var atts' := kept + [Att(addr, len, s)];
    forall page | page in pr'.pages ensures CoveredAt(atts', page, pr'.pages[page]) {
      MapRangePages(pr, s, size, addr, len, mmapOk, page);
      if InRange(page, addr, len) {
        assert atts'[|kept|] == Att(addr, len, s) && Explains(atts'[|kept|], page, pr'.pages[page]);
      } else {
        CoverKept(pr.atts, addr, len, page, pr.pages[page]);
        CoverPrefix(kept, atts', page, pr.pages[page]);
      }
    }
  }

  lemma CoverPrefix(atts: seq<Att>, atts': seq<Att>, page: nat, v: (SegId, nat))
    requires CoveredAt(atts, page, v) && |atts| <= |atts'| && atts'[..|atts|] == atts
    ensures CoveredAt(atts', page, v)
  {
    var k :| 0 <= k < |atts| && Explains(atts[k], page, v);
    assert atts'[k] == atts[k];
  }

  /**
   mapLocked keeps the invariant when the segment is not removed or has an open file, which is
   what attach and mapFd guarantee; then it is not freed when an older mapping of it is dropped.
   */
  lemma MapLockedInv(st: Shm, p: Pid, s: SegId, addr: nat, len: nat, mmapOk: bool)
    requires Inv(st) && p in st.procs && s in st.segs && s in st.table && st.segs[s].size.Some?
    requires !st.segs[s].removed || st.segs[s].fds > 0
    ensures Inv(MapLocked(st, p, s, addr, len, mmapOk).st)
  {
    hide CountsOk, Covered;
    var pr := MapRange(st.procs[p], s, st.segs[s].size.value, addr, len, mmapOk);
    if pr.Some? {
      var st1 := st.(procs := st.procs[p := pr.value]);
      RemapCounts(st, p, pr.value);
      DropWithinOk(st1, p, addr, len, 0);
      var st2 := DropWithin(st1, p, addr, len, 0);
      assert pr.value.atts[..0] + Kept(pr.value.atts[0..], addr, len) == Kept(st.procs[p].atts, addr, len);
      AppendOk(st2, p, Att(addr, len, s));
      MapCovers(st.procs[p], s, st.segs[s].size.value, addr, len, mmapOk);
    }
  }

  /**
   Exactly when an older mapping of the segment itself being dropped frees it midway: when it is
   removed, has no open file, and every attachment to it is p's and within the range.
   */
  lemma FreedMidway(st: Shm, p: Pid, s: SegId, addr: nat, len: nat)
    requires CountsOk(st) && p in st.procs && s in st.table
    ensures forall i :: 0 <= i < |st.procs[p].atts| ==> st.procs[p].atts[i].s in st.segs
    ensures s !in DropWithin(st, p, addr, len, 0).table <==>
            && st.segs[s].removed && st.segs[s].fds == 0
            && Attached(st.procs[p := st.procs[p].(atts := Kept(st.procs[p].atts, addr, len))], s) == 0
  {
    DropWithinOk(st, p, addr, len, 0);
    var st' := DropWithin(st, p, addr, len, 0);
    assert st.procs[p].atts[..0] + Kept(st.procs[p].atts[0..], addr, len) == Kept(st.procs[p].atts, addr, len);
    assert SegOk(st', s);
  }

  lemma UnmapInv(st: Shm, p: Pid, addr: nat, len: nat, mmapOk: bool)
    requires Inv(st) && p in st.procs
    ensures Inv(Unmap(st, p, addr, len, mmapOk).st)
  {
    hide CountsOk;
    var pr := UnmapRange(st.procs[p], addr, len, mmapOk);
    if pr.Some? {
      var st1 := st.(procs := st.procs[p := pr.value]);
      RemapCounts(st, p, pr.value);
      DropWithinOk(st1, p, addr, len, 0);
      var st2 := DropWithin(st1, p, addr, len, 0);
      assert pr.value.atts[..0] + Kept(pr.value.atts[0..], addr, len) == Kept(st.procs[p].atts, addr, len);
      assert Covered(st.procs[p]);
      forall page | page in pr.value.pages ensures CoveredAt(st2.procs[p].atts, page, pr.value.pages[page]) {
        CoverKept(st.procs[p].atts, addr, len, page, st.procs[p].pages[page]);
      }
    }
  }

  // ---- every run ----

  datatype Op =
    | OpCreate(size: nat, memOk: bool)
    | OpRemove(id: SegId)
    | OpOpen(f: FileId, name: string, creat: bool, excl: bool)
    | OpUnlink(name: string)
    | OpTruncate(f: FileId, size: nat, memOk: bool)
    | OpRelease(f: FileId)
    | OpAttach(p: Pid, id: SegId, addr: nat, mmapOk: bool)
    | OpMapFd(p: Pid, f: FileId, addr: nat, len: nat, mmapOk: bool)
    | OpUnmap(p: Pid, addr: nat, len: nat, mmapOk: bool)
    | OpStart(p: Pid)
    | OpGrow(p: Pid, committed: nat)
    | OpFreeMemory(p: Pid)
    | OpDetachAll(p: Pid)

  /**
   What the kernel's callers guarantee: files are used while they are open and new when opened,
   a process's attachments are dropped after its memory is freed; and, of remove, that it is
   called with ids that create returned, to which no name leads.
   */
  predicate Legal(st: Shm, op: Op) {
    match op
    case OpCreate(_, _) => true
    case OpRemove(id) => forall n :: n in st.names ==> st.names[n] != id
    case OpOpen(f, _, _, _) => f !in st.files
    case OpUnlink(_) => true
    case OpTruncate(f, _, _) => f in st.files
    case OpRelease(f) => f in st.files
    case OpAttach(p, _, _, _) => p in st.procs
    case OpMapFd(p, f, _, _, _) => p in st.procs && f in st.files
    case OpUnmap(p, _, _, _) => p in st.procs
    case OpStart(p) => p !in st.procs
    case OpGrow(p, c) => p in st.procs && st.procs[p].committed <= c
    case OpFreeMemory(p) => p in st.procs
    case OpDetachAll(p) => p in st.procs && st.procs[p].pages == map[]
  }

  ghost function Step(st: Shm, op: Op): Shm
    requires Inv(st) && Legal(st, op)
  {
    match op
    case OpCreate(size, memOk) => Create(st, size, memOk).st
    case OpRemove(id) => Remove(st, id).st
    case OpOpen(f, name, creat, excl) => Open(st, f, name, creat, excl).st
    case OpUnlink(name) => Unlink(st, name).st
    case OpTruncate(f, size, memOk) => Truncate(st, f, size, memOk).st
    case OpRelease(f) => Release(st, f)
    case OpAttach(p, id, addr, ok) => Attach(st, p, id, addr, ok).st
    case OpMapFd(p, f, addr, len, ok) => MapFd(st, p, f, addr, len, ok).st
    case OpUnmap(p, addr, len, ok) => Unmap(st, p, addr, len, ok).st
    case OpStart(p) => st.(procs := st.procs[p := Proc(0, map[], [])])
    case OpGrow(p, c) => st.(procs := st.procs[p := st.procs[p].(committed := c)])
    case OpFreeMemory(p) => st.(procs := st.procs[p := st.procs[p].(committed := 0, pages := map[])])
    case OpDetachAll(p) =>
      AttsInSegs(st, p);
      DetachAll(st, p)
  }

  lemma UnlinkInv(st: Shm, name: string)
    requires Inv(st)
    ensures Inv(Unlink(st, name).st)
  {
    if name in st.names {
      assert CountsOk(st.(names := st.names - {name})) by {
        NamesCounts(st, st.names - {name});
      }
      SetRemovedOk(st.(names := st.names - {name}), st.names[name]);
    }
  }

  lemma NamesCounts(st: Shm, names: map<string, SegId>)
    requires CountsOk(st) && NamesOk(st.(names := names))
    ensures CountsOk(st.(names := names))
  {
    var st' := st.(names := names);
    forall s | s in st'.segs ensures SegOk(st', s) { assert SegOk(st, s); }
    forall p, k | p in st'.procs && 0 <= k < |st'.procs[p].atts| ensures AttOk(st', st'.procs[p].atts[k]) {
      assert AttOk(st, st.procs[p].atts[k]);
    }
  }

  lemma OpenInv(st: Shm, f: FileId, name: string, creat: bool, excl: bool)
    requires Inv(st) && f !in st.files
    ensures Inv(Open(st, f, name, creat, excl).st)
  {
    hide SegOk, Attached, Holders;
    if name in st.names {
      AddFileOk(st, f, st.names[name]);
    } else if creat {
      var st1 := NewSegment(st);
      NextIsNew(st);
      NewSegmentOk(st);
      NamesCounts(st1, st.names[name := st.next]);
      AddFileOk(st1.(names := st.names[name := st.next]), f, st.next);
    }
  }

  lemma TruncateInv(st: Shm, f: FileId, size: nat, memOk: bool)
    requires Inv(st) && f in st.files
    ensures Inv(Truncate(st, f, size, memOk).st)
  {
    hide SegOk;
    FileIsHeld(st, f);
    if st.segs[st.files[f]].size.None? && size > 0 && memOk {
      SetSizeOk(st, st.files[f], AlignUp(size));
    }
  }

  lemma CreateInv(st: Shm, size: nat, memOk: bool)
    requires Inv(st)
    ensures Inv(Create(st, size, memOk).st)
  {
    hide SegOk;
    NewSegmentOk(st);
    if size > 0 && memOk {
      SetSizeOk(NewSegment(st), st.next, AlignUp(size));
    }
  }

  /** Exactly when remove keeps the invariant: when no name leads to the segment. */
  lemma RemoveInvExactly(st: Shm, id: SegId)
    requires Inv(st)
    ensures Inv(Remove(st, id).st) <==> forall n :: n in st.names ==> st.names[n] != id
  {
    if Remove(st, id).ret.Ok? {
      if forall n :: n in st.names ==> st.names[n] != id {
        SetRemovedOk(st, id);
      } else {
        var n :| n in st.names && st.names[n] == id;
        assert !NamesOk(Remove(st, id).st);
      }
    }
  }

  lemma ProcInv(st: Shm, p: Pid, pr: Proc)
    requires Inv(st) && Covered(pr)
    requires if p in st.procs then pr.atts == st.procs[p].atts else pr.atts == []
    ensures Inv(st.(procs := st.procs[p := pr]))
  {
    if p in st.procs {
      RemapCounts(st, p, pr);
    } else {
      StartCounts(st, p, pr);
    }
  }

  lemma StartCounts(st: Shm, p: Pid, pr: Proc)
    requires CountsOk(st) && p !in st.procs && pr.atts == []
    ensures CountsOk(st.(procs := st.procs[p := pr]))
  {
    hide Attached, Holders;
    var st' := st.(procs := st.procs[p := pr]);
    forall s | s in st'.segs ensures SegOk(st', s) {
      assert SegOk(st, s);
      AttachedUpdate(st.procs, p, pr, s);
    }
    forall q, k | q in st'.procs && 0 <= k < |st'.procs[q].atts| ensures AttOk(st', st'.procs[q].atts[k]) {
      assert AttOk(st, st.procs[q].atts[k]);
    }
  }

  /** Every operation keeps the invariant. */
  lemma StepInv(st: Shm, op: Op)
    requires Inv(st) && Legal(st, op)
    ensures Inv(Step(st, op))
  {
    hide SegOk, DropWithin, MapLocked, Unmap, Release, Open, Unlink, Truncate, Create;
    match op
    case OpCreate(size, memOk) => CreateInv(st, size, memOk);
    case OpRemove(id) => RemoveInvExactly(st, id);
    case OpOpen(f, name, creat, excl) => OpenInv(st, f, name, creat, excl);
    case OpUnlink(name) => UnlinkInv(st, name);
    case OpTruncate(f, size, memOk) => TruncateInv(st, f, size, memOk);
    case OpRelease(f) => ReleaseInv(st, f);
    case OpAttach(p, id, addr, ok) =>
      if id in st.table && !st.segs[id].removed && st.segs[id].size.Some? {
        MapLockedInv(st, p, id, addr, st.segs[id].size.value, ok);
      }
    case OpMapFd(p, f, addr, len, ok) =>
      FileIsHeld(st, f);
      if st.segs[st.files[f]].size.Some? {
        MapLockedInv(st, p, st.files[f], addr, len, ok);
      }
    case OpUnmap(p, addr, len, ok) => UnmapInv(st, p, addr, len, ok);
    case OpStart(p) => ProcInv(st, p, Proc(0, map[], []));
    case OpGrow(p, c) =>
      assert Covered(st.procs[p]);
      ProcInv(st, p, st.procs[p].(committed := c));
    case OpFreeMemory(p) => ProcInv(st, p, st.procs[p].(committed := 0, pages := map[]));
    case OpDetachAll(p) => DetachAllInv(st, p);
  }

  lemma ReleaseInv(st: Shm, f: FileId)
    requires Inv(st) && f in st.files
    ensures Inv(Release(st, f))
  {
    ReleaseOk(st, f);
  }

  lemma DetachAllInv(st: Shm, p: Pid)
    requires Inv(st) && p in st.procs && st.procs[p].pages == map[]
    ensures forall i :: 0 <= i < |st.procs[p].atts| ==> st.procs[p].atts[i].s in st.segs
    ensures Inv(DetachAll(st, p))
  {
    hide CountsOk, DetachAll;
    DetachAllOk(st, p);
  }

  const EMPTY := Shm(map[], {}, map[], 1, map[], map[])

  ghost predicate IsRun(run: seq<Shm>, ops: seq<Op>) {
    && |run| == |ops| + 1 && run[0] == EMPTY
    && forall i :: 0 <= i < |ops| ==> StepsTo(run[i], ops[i], run[i + 1])
  }

  ghost predicate StepsTo(st: Shm, op: Op, st': Shm) {
    Legal(st, op) && (Inv(st) ==> st' == Step(st, op))
  }

  lemma {:induction false} RunInv(run: seq<Shm>, ops: seq<Op>, i: nat)
    requires IsRun(run, ops) && i < |run|
    ensures Inv(run[i])
    decreases i
  {
    if i > 0 {
      RunInv(run, ops, i - 1);
      assert StepsTo(run[i - 1], ops[i - 1], run[i]);
      StepInv(run[i - 1], ops[i - 1]);
    }
  }

  /** The segment has had memory at some time up to i. */
  ghost predicate EverSized(run: seq<Shm>, s: SegId, i: nat)
    requires i < |run|
  {
    exists j :: 0 <= j <= i && SizedAt(run, s, j)
  }

  predicate SizedAt(run: seq<Shm>, s: SegId, j: int)
    requires 0 <= j < |run|
  {
    s in run[j].segs && run[j].segs[s].size.Some?
  }

  /** Segments stay, freed ones stay freed, and memory is made for one only in sizing it. */
  ghost predicate Onward(st: Shm, st': Shm) {
    && (forall s :: s in st.segs && s !in st.table ==> s !in st'.table)
    && (forall s :: s in st.segs ==> s in st'.segs && (st'.segs[s].opens == st.segs[s].opens || st'.segs[s].size.Some?))
    && (forall s :: s in st'.segs && s !in st.segs ==> st'.segs[s].opens == 0 || st'.segs[s].size.Some?)
  }

  lemma MapOnward(st: Shm, p: Pid, id: SegId, addr: nat, len: nat, ok: bool)
    requires CountsOk(st) && p in st.procs && id in st.segs && st.segs[id].size.Some?
    ensures Onward(st, MapLocked(st, p, id, addr, len, ok).st)
  {
    hide CountsOk;
    var pr := MapRange(st.procs[p], id, st.segs[id].size.value, addr, len, ok);
    if pr.Some? {
      RemapCounts(st, p, pr.value);
      DropWithinOk(st.(procs := st.procs[p := pr.value]), p, addr, len, 0);
    }
  }

  lemma UnmapOnward(st: Shm, p: Pid, addr: nat, len: nat, ok: bool)
    requires CountsOk(st) && p in st.procs
    ensures Onward(st, Unmap(st, p, addr, len, ok).st)
  {
    hide CountsOk;
    var pr := UnmapRange(st.procs[p], addr, len, ok);
    if pr.Some? {
      RemapCounts(st, p, pr.value);
      DropWithinOk(st.(procs := st.procs[p := pr.value]), p, addr, len, 0);
    }
  }

  lemma SetRemovedOnward(st: Shm, s: SegId)
    requires s in st.segs
    ensures Onward(st, SetRemoved(st, s))
  {
  }

  lemma CreateOnward(st: Shm, size: nat, memOk: bool)
    requires st.next !in st.segs
    ensures Onward(st, Create(st, size, memOk).st)
  {
  }

  lemma OpenOnward(st: Shm, f: FileId, name: string, creat: bool, excl: bool)
    requires st.next !in st.segs
    ensures Onward(st, Open(st, f, name, creat, excl).st)
  {
  }

  lemma TruncateOnward(st: Shm, f: FileId, size: nat, memOk: bool)
    requires f in st.files && st.files[f] in st.segs
    ensures Onward(st, Truncate(st, f, size, memOk).st)
  {
  }

  lemma StepOnward(st: Shm, op: Op)
    requires Inv(st) && Legal(st, op)
    ensures Onward(st, Step(st, op))
  {
    hide Unmap, MapLocked, DetachAll, SegOk, AttOk, Covered, Create, SetRemoved, Open, Truncate;
    NextIsNew(st);
    match op
    case OpCreate(size, memOk) => CreateOnward(st, size, memOk);
    case OpRemove(id) =>
      if id in st.segs {
        SetRemovedOnward(st, id);
      }
    case OpOpen(f, name, creat, excl) => OpenOnward(st, f, name, creat, excl);
    case OpUnlink(name) =>
      if name in st.names {
        SetRemovedOnward(st.(names := st.names - {name}), st.names[name]);
      }
    case OpTruncate(f, size, memOk) => TruncateOnward(st, f, size, memOk);
    case OpAttach(p, id, addr, ok) =>
      if id in st.table && !st.segs[id].removed && st.segs[id].size.Some? {
        MapOnward(st, p, id, addr, st.segs[id].size.value, ok);
      }
    case OpMapFd(p, f, addr, len, ok) =>
      if st.segs[st.files[f]].size.Some? {
        MapOnward(st, p, st.files[f], addr, len, ok);
      }
    case OpUnmap(p, addr, len, ok) => UnmapOnward(st, p, addr, len, ok);
    case OpDetachAll(p) => DetachAllOk(st, p);
    case _ =>
  }

  lemma {:induction false} OpenedExactly(run: seq<Shm>, ops: seq<Op>, i: nat, s: SegId)
    requires IsRun(run, ops) && i < |run| && s in run[i].segs
    ensures run[i].segs[s].opens == 1 <==> EverSized(run, s, i)
    decreases i
  {
    RunInv(run, ops, i);
    assert SegOk(run[i], s);
    if run[i].segs[s].size.Some? {
      assert SizedAt(run, s, i);
    } else if i > 0 {
      RunInv(run, ops, i - 1);
      assert StepsTo(run[i - 1], ops[i - 1], run[i]);
      StepOnward(run[i - 1], ops[i - 1]);
      if s in run[i - 1].segs {
        OpenedExactly(run, ops, i - 1, s);
        assert !SizedAt(run, s, i);
      } else {
        NeverBefore(run, ops, i - 1, s);
      }
    }
  }

  lemma {:induction false} NeverBefore(run: seq<Shm>, ops: seq<Op>, i: nat, s: SegId)
    requires IsRun(run, ops) && i < |run| && s !in run[i].segs
    ensures !EverSized(run, s, i)
    decreases i
  {
    if i > 0 {
      RunInv(run, ops, i - 1);
      assert StepsTo(run[i - 1], ops[i - 1], run[i]);
      StepOnward(run[i - 1], ops[i - 1]);
      NeverBefore(run, ops, i - 1, s);
    }
  }

  /** A page shows a page of its segment that lies within it. */
  lemma PageWithin(st: Shm, p: Pid, page: nat)
    requires Inv(st) && p in st.procs && page in st.procs[p].pages
    ensures var v := st.procs[p].pages[page];
            && v.0 in st.segs && st.segs[v.0].size.Some? && v.1 * PAGE < st.segs[v.0].size.value
            && CoveredAt(st.procs[p].atts, page, v)
  {
    hide SegOk;
    var v := st.procs[p].pages[page];
    assert Covered(st.procs[p]) && CoveredAt(st.procs[p].atts, page, v);
    var k :| 0 <= k < |st.procs[p].atts| && Explains(st.procs[p].atts[k], page, v);
    var a := st.procs[p].atts[k];
    assert AttOk(st, a);
    assert a.addr == a.addr / PAGE * PAGE;
    assert v.1 * PAGE == page * PAGE - a.addr;
  }

  /**
   In every state of every run: attached and fds are the true numbers; every page that shows a segment is
   covered by an attachment of its process to that segment, and shows the page of it that lies there; a segment
   is freed exactly when it is removed and has neither attachments nor open files; and memory made for it is
   given back exactly once, at that moment.
   */
  lemma RunSafe(run: seq<Shm>, ops: seq<Op>, i: nat, s: SegId)
    requires IsRun(run, ops) && i < |run| && s in run[i].segs
    ensures var st := run[i];
            && st.segs[s].attached == Attached(st.procs, s) && st.segs[s].fds == |Holders(st.files, s)|
            && (s !in st.table <==> st.segs[s].removed && Attached(st.procs, s) == 0 && Holders(st.files, s) == {})
            && (st.segs[s].opens == 1 <==> EverSized(run, s, i)) && st.segs[s].opens <= 1
            && st.segs[s].closes == (if s !in st.table && EverSized(run, s, i) then 1 else 0)
            && (forall p, page :: p in st.procs && page in st.procs[p].pages && st.procs[p].pages[page].0 == s ==>
                  && s in st.table && st.segs[s].size.Some?
                  && st.procs[p].pages[page].1 * PAGE < st.segs[s].size.value
                  && CoveredAt(st.procs[p].atts, page, st.procs[p].pages[page]))
  {
    RunInv(run, ops, i);
    OpenedExactly(run, ops, i, s);
    FreedExactlyWhenUnused(run[i], s);
    assert SegOk(run[i], s);
    forall p, page | p in run[i].procs && page in run[i].procs[p].pages && run[i].procs[p].pages[page].0 == s
      ensures CoveredAt(run[i].procs[p].atts, page, run[i].procs[p].pages[page])
      ensures run[i].procs[p].pages[page].1 * PAGE < run[i].segs[s].size.value
    {
      PageWithin(run[i], p, page);
    }
  }

  /** A freed segment stays freed: no operation brings one back into the table. */
  lemma {:induction false} FreedForGood(run: seq<Shm>, ops: seq<Op>, i: nat, j: nat, s: SegId)
    requires IsRun(run, ops) && i <= j < |run| && s in run[i].segs && s !in run[i].table
    ensures s in run[j].segs && s !in run[j].table
    decreases j
  {
    if i < j {
      FreedForGood(run, ops, i, j - 1, s);
      RunInv(run, ops, j - 1);
      assert StepsTo(run[j - 1], ops[j - 1], run[j]);
      StepOnward(run[j - 1], ops[j - 1]);
    }
  }

  /**
   What goes wrong when remove is called with the id of a named segment nobody uses: it is freed
   with the name still leading to it, and opening the name gives a file on a freed segment.
   */
  lemma RemoveOfNamedReopens(st: Shm, name: string, f: FileId, creat: bool)
    requires Inv(st) && name in st.names && f !in st.files
    requires st.segs[st.names[name]].attached == 0 && st.segs[st.names[name]].fds == 0
    ensures var id := st.names[name];
            var st1 := Remove(st, id);
            var st2 := Open(st1.st, f, name, creat, false);
            && st1.ret.Ok? && id !in st1.st.table
            && st2.ret == Ok(f) && st2.st.files[f] == id && id !in st2.st.table && st2.st.segs[id].fds == 1
  {
  }
}
