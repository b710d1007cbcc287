/**
 Shared memory in terms of pages: when a segment is freed that no page shows any more, and when its
 attachments outlive its pages.
 */
module ShmPages {
  import opened Common
  import opened ShmState
  import opened ShmOps
  import opened ShmTheorems

  // ---- attachments and the pages that show them ----

  predicate ShownOn(pr: Proc, a: Att, page: nat) {
    page in pr.pages && pr.pages[page].0 == a.s && Covers(a, page)
  }

  /** Some page of the attachment shows its segment. */
  ghost predicate Shown(pr: Proc, a: Att) {
    exists page :: ShownOn(pr, a, page)
  }

  /** Some page of the attachment outside the range shows its segment. */
  ghost predicate ShownOutside(pr: Proc, a: Att, addr: nat, len: nat) {
    exists page :: ShownOn(pr, a, page) && !InRange(page, addr, len)
  }

  predicate CoversIn(a: Att, page: nat, addr: nat, len: nat) {
    Covers(a, page) && InRange(page, addr, len)
  }

  /** The attachment has a page in the range. */
  ghost predicate Overlaps(a: Att, addr: nat, len: nat) {
    exists page :: CoversIn(a, page, addr, len)
  }

  /** Every attachment has a page that shows its segment. */
  ghost predicate Showing(pr: Proc) {
    forall a :: a in pr.atts ==> Shown(pr, a)
  }

  ghost predicate NoPageShows(st: Shm, s: SegId) {
    forall p, page :: p in st.procs && page in st.procs[p].pages ==> st.procs[p].pages[page].0 != s
  }

  // ---- unmapping and mapping ----

  /** An unmap leaves every attachment shown exactly when each that is not within the range is shown outside it. */
  lemma UnmapShows(st: Shm, p: Pid, addr: nat, len: nat, ok: bool)
    requires Inv(st) && p in st.procs && Unmap(st, p, addr, len, ok).ret.Ok?
    ensures p in Unmap(st, p, addr, len, ok).st.procs
    ensures Showing(Unmap(st, p, addr, len, ok).st.procs[p]) <==>
            forall a :: a in st.procs[p].atts && !Within(a, addr, len) ==> ShownOutside(st.procs[p], a, addr, len)
  {
    hide CountsOk, Covered, Kept, Unmap;
    UnmapProc(st, p, addr, len, ok);
    var pr, pr' := st.procs[p], Unmap(st, p, addr, len, ok).st.procs[p];
    forall a ensures a in pr'.atts <==> a in pr.atts && !Within(a, addr, len) {
      KeptExact(pr.atts, addr, len, a);
    }
    forall a ensures Shown(pr', a) <==> ShownOutside(pr, a, addr, len) {
      assert forall page :: ShownOn(pr', a, page) <==> ShownOn(pr, a, page) && !InRange(page, addr, len);
    }
  }

  /** The process after an unmap. */
  lemma UnmapProc(st: Shm, p: Pid, addr: nat, len: nat, ok: bool)
    requires CountsOk(st) && p in st.procs && Unmap(st, p, addr, len, ok).ret.Ok?
    ensures var st' := Unmap(st, p, addr, len, ok).st;
            && UnmapRange(st.procs[p], addr, len, ok).Some? && p in st'.procs
            && st'.procs == st.procs[p := st'.procs[p]]
            && st'.procs[p].pages == UnmapRange(st.procs[p], addr, len, ok).value.pages
            && st'.procs[p].atts == Kept(st.procs[p].atts, addr, len)
  {
    hide CountsOk;
    var pr := UnmapRange(st.procs[p], addr, len, ok).value;
    RemapCounts(st, p, pr);
    DropWithinOk(st.(procs := st.procs[p := pr]), p, addr, len, 0);
    assert pr.atts[..0] + Kept(pr.atts[0..], addr, len) == Kept(st.procs[p].atts, addr, len);
  }

  /**
   A map of s leaves every attachment shown exactly when each that is not within the range is shown outside it,
   or is to s itself and has a page in the range.
   */
  lemma MapShows(st: Shm, p: Pid, s: SegId, addr: nat, len: nat, ok: bool)
    requires Inv(st) && p in st.procs && s in st.segs && st.segs[s].size.Some?
    requires MapLocked(st, p, s, addr, len, ok).ret.Ok?
    ensures p in MapLocked(st, p, s, addr, len, ok).st.procs
    ensures Showing(MapLocked(st, p, s, addr, len, ok).st.procs[p]) <==>
            forall a :: a in st.procs[p].atts && !Within(a, addr, len) ==>
              ShownOutside(st.procs[p], a, addr, len) || (a.s == s && Overlaps(a, addr, len))
  {
    hide CountsOk, Covered, Kept, MapLocked;
    MapProc(st, p, s, addr, len, ok);
    var pr, pr' := st.procs[p], MapLocked(st, p, s, addr, len, ok).st.procs[p];
    var size, new1 := st.segs[s].size.value, Att(addr, len, s);
    assert Shown(pr', new1) by {
      MapRangePages(pr, s, size, addr, len, ok, addr / PAGE);
      assert ShownOn(pr', new1, addr / PAGE);
    }
    forall a ensures a in pr'.atts <==> a == new1 || (a in pr.atts && !Within(a, addr, len)) {
      KeptExact(pr.atts, addr, len, a);
    }
    forall a ensures Shown(pr', a) <==> ShownOutside(pr, a, addr, len) || (a.s == s && Overlaps(a, addr, len)) {
      MapShown(pr, pr', a, s, size, addr, len, ok);
    }
  }

  lemma MapShown(pr: Proc, pr': Proc, a: Att, s: SegId, size: nat, addr: nat, len: nat, ok: bool)
    requires MapRange(pr, s, size, addr, len, ok).Some? && pr'.pages == MapRange(pr, s, size, addr, len, ok).value.pages
    ensures Shown(pr', a) <==> ShownOutside(pr, a, addr, len) || (a.s == s && Overlaps(a, addr, len))
  {
    forall page
      ensures ShownOn(pr', a, page) <==>
              (ShownOn(pr, a, page) && !InRange(page, addr, len)) || (a.s == s && CoversIn(a, page, addr, len))
    {
      MapRangePages(pr, s, size, addr, len, ok, page);
    }
  }

  /** The process after a map. */
  lemma MapProc(st: Shm, p: Pid, s: SegId, addr: nat, len: nat, ok: bool)
    requires CountsOk(st) && p in st.procs && s in st.segs && st.segs[s].size.Some?
    requires MapLocked(st, p, s, addr, len, ok).ret.Ok?
    ensures var st', size := MapLocked(st, p, s, addr, len, ok).st, st.segs[s].size.value;
            && MapRange(st.procs[p], s, size, addr, len, ok).Some? && p in st'.procs
            && addr % PAGE == 0 && len > 0
            && st'.procs == st.procs[p := st'.procs[p]]
            && st'.procs[p].pages == MapRange(st.procs[p], s, size, addr, len, ok).value.pages
            && st'.procs[p].atts == Kept(st.procs[p].atts, addr, len) + [Att(addr, len, s)]
  {
    hide CountsOk;
    var pr := MapRange(st.procs[p], s, st.segs[s].size.value, addr, len, ok).value;
    RemapCounts(st, p, pr);
    DropWithinOk(st.(procs := st.procs[p := pr]), p, addr, len, 0);
    assert pr.atts[..0] + Kept(pr.atts[0..], addr, len) == Kept(st.procs[p].atts, addr, len);
  }

  // ---- runs ----

  /** Maps of s that leave every attachment shown, as MapShows says. */
  ghost predicate CleanMap(pr: Proc, s: SegId, addr: nat, len: nat) {
    forall a :: a in pr.atts && !Within(a, addr, len) ==>
      ShownOutside(pr, a, addr, len) || (a.s == s && Overlaps(a, addr, len))
  }

  /** No map or unmap takes the last page from an attachment that is kept. */
  ghost predicate Clean(st: Shm, op: Op) {
    match op
    case OpUnmap(p, addr, len, _) =>
      p in st.procs ==>
        forall a :: a in st.procs[p].atts && !Within(a, addr, len) ==> ShownOutside(st.procs[p], a, addr, len)
    case OpAttach(p, id, addr, _) =>
      p in st.procs && id in st.segs && st.segs[id].size.Some? ==>
        CleanMap(st.procs[p], id, addr, st.segs[id].size.value)
    case OpMapFd(p, f, addr, len, _) =>
      p in st.procs && f in st.files ==> CleanMap(st.procs[p], st.files[f], addr, len)
    case _ => true
  }

  /** Attachments are shown, but for those of a process whose memory is freed. */
  ghost predicate Vivid(st: Shm) {
    forall p :: p in st.procs ==> st.procs[p].pages == map[] || Showing(st.procs[p])
  }

  lemma MapVivid(st: Shm, p: Pid, s: SegId, addr: nat, len: nat, ok: bool)
    requires Inv(st) && Vivid(st) && p in st.procs && s in st.segs && st.segs[s].size.Some?
    requires CleanMap(st.procs[p], s, addr, len)
    ensures Vivid(MapLocked(st, p, s, addr, len, ok).st)
  {
    hide CountsOk, Covered, Showing;
    if MapLocked(st, p, s, addr, len, ok).ret.Ok? {
      MapShows(st, p, s, addr, len, ok);
      MapProc(st, p, s, addr, len, ok);
    }
  }

  lemma UnmapVivid(st: Shm, p: Pid, addr: nat, len: nat, ok: bool)
    requires Inv(st) && Vivid(st) && p in st.procs && Clean(st, OpUnmap(p, addr, len, ok))
    ensures Vivid(Unmap(st, p, addr, len, ok).st)
  {
    hide CountsOk, Covered, Showing;
    if Unmap(st, p, addr, len, ok).ret.Ok? {
      UnmapShows(st, p, addr, len, ok);
      UnmapProc(st, p, addr, len, ok);
    }
  }

  lemma ProcsStay(st: Shm, op: Op)
    requires Inv(st) && Legal(st, op)
    requires op.OpCreate? || op.OpRemove? || op.OpOpen? || op.OpUnlink? || op.OpTruncate? || op.OpRelease?
    ensures Step(st, op).procs == st.procs
  {
    hide SegOk, AttOk, Covered;
  }

  lemma StepVivid(st: Shm, op: Op)
    requires Inv(st) && Legal(st, op) && Vivid(st) && Clean(st, op)
    ensures Vivid(Step(st, op))
  {
    hide MapLocked, Unmap, DetachAll, CleanMap, SegOk, AttOk, Covered, Showing;
    hide Create, Remove, Open, Unlink, Truncate, Release;
    match op
    case OpAttach(p, id, addr, ok) =>
      if id in st.table && !st.segs[id].removed && st.segs[id].size.Some? {
        MapVivid(st, p, id, addr, st.segs[id].size.value, ok);
      }
    case OpMapFd(p, f, addr, len, ok) =>
      if st.segs[st.files[f]].size.Some? {
        MapVivid(st, p, st.files[f], addr, len, ok);
      }
    case OpUnmap(p, addr, len, ok) => UnmapVivid(st, p, addr, len, ok);
    case OpDetachAll(p) =>
      DetachAllOk(st, p);
      NothingToShow(DetachAll(st, p).procs[p]);
    case OpGrow(p, c) => ShowingStays(st.procs[p], st.procs[p].(committed := c));
    case OpStart(p) => NothingToShow(Proc(0, map[], []));
    case OpFreeMemory(_) =>
    case _ => ProcsStay(st, op);
  }

  lemma NothingToShow(pr: Proc)
    requires pr.atts == []
    ensures Showing(pr)
  {
  }

  lemma ShowingStays(pr: Proc, pr': Proc)
    requires pr'.pages == pr.pages && pr'.atts == pr.atts
    ensures Showing(pr') <==> Showing(pr)
  {
    forall a ensures Shown(pr', a) <==> Shown(pr, a) {
      assert forall page :: ShownOn(pr', a, page) <==> ShownOn(pr, a, page);
    }
  }

  lemma {:induction false} RunVivid(run: seq<Shm>, ops: seq<Op>, i: nat)
    requires IsRun(run, ops) && i < |run| && forall j :: 0 <= j < i ==> Clean(run[j], ops[j])
    ensures Vivid(run[i])
    decreases i
  {
    if i > 0 {
      RunVivid(run, ops, i - 1);
      RunInv(run, ops, i - 1);
      assert StepsTo(run[i - 1], ops[i - 1], run[i]) && Clean(run[i - 1], ops[i - 1]);
      hide Vivid, Clean;
      StepVivid(run[i - 1], ops[i - 1]);
    }
  }

  /** No process is between losing its memory and being detached. */
  ghost predicate Settled(st: Shm) {
    forall p :: p in st.procs && st.procs[p].pages == map[] ==> st.procs[p].atts == []
  }

  /** With all attachments shown, attached is as good as mapped. */
  lemma AttachedIsShown(st: Shm, s: SegId)
    requires Inv(st) && forall p :: p in st.procs ==> Showing(st.procs[p])
    ensures Attached(st.procs, s) == 0 <==> NoPageShows(st, s)
  {
    hide CountsOk, Attached;
    if NoPageShows(st, s) {
      forall p, k | p in st.procs && 0 <= k < |st.procs[p].atts| ensures st.procs[p].atts[k].s != s {
        assert Showing(st.procs[p]) && st.procs[p].atts[k] in st.procs[p].atts;
        var page :| ShownOn(st.procs[p], st.procs[p].atts[k], page);
      }
      NoneAttached(st.procs, s);
    } else {
      var p, page :| p in st.procs && page in st.procs[p].pages && st.procs[p].pages[page].0 == s;
      var v := st.procs[p].pages[page];
      assert Covered(st.procs[p]) && CoveredAt(st.procs[p].atts, page, v);
      var k :| 0 <= k < |st.procs[p].atts| && Explains(st.procs[p].atts[k], page, v);
      AttachedPositive(st.procs, p, k);
    }
  }

  lemma NoneAttached(procs: map<Pid, Proc>, s: SegId)
    requires forall p, k :: p in procs && 0 <= k < |procs[p].atts| ==> procs[p].atts[k].s != s
    ensures Attached(procs, s) == 0
  {
    forall p | p in procs ensures Count(procs[p].atts, s) == 0 {
      CountZero(procs[p].atts, s);
    }
    SumZero(Counts(procs, s));
  }

  /**
   In every run whose maps and unmaps are clean: a segment is freed exactly when it is removed, no page of
   any process shows it, and no file is open on it.
   */
  lemma FreedWhenNothingMaps(run: seq<Shm>, ops: seq<Op>, i: nat, s: SegId)
    requires IsRun(run, ops) && i < |run| && s in run[i].segs && Settled(run[i])
    requires forall j :: 0 <= j < i ==> Clean(run[j], ops[j])
    ensures s !in run[i].table <==>
            run[i].segs[s].removed && NoPageShows(run[i], s) && Holders(run[i].files, s) == {}
  {
    RunVivid(run, ops, i);
    RunInv(run, ops, i);
    RunSafe(run, ops, i, s);
    hide IsRun, Inv;
    forall p | p in run[i].procs ensures Showing(run[i].procs[p]) {
    }
    AttachedIsShown(run[i], s);
  }

  // ---- a segment that outlives its pages ----

  /** An unmap of part of the only attachment of a process keeps it, and frees nothing. */
  lemma HalfUnmap(st: Shm, p: Pid, a: Att, addr: nat, len: nat)
    requires Inv(st) && p in st.procs && st.procs[p].atts == [a] && !Within(a, addr, len)
    requires addr % PAGE == 0 && len % PAGE == 0 && len > 0 && addr + len <= st.procs[p].committed
    ensures var st', pr := Unmap(st, p, addr, len, true).st, UnmapRange(st.procs[p], addr, len, true);
            pr.Some? && st' == st.(procs := st.procs[p := pr.value])
  {
    hide CountsOk, Covered, InRange;
    var pr := UnmapRange(st.procs[p], addr, len, true).value;
    var st1 := st.(procs := st.procs[p := pr]);
    RemapCounts(st, p, pr);
    AttsInSegs(st1, p);
    assert st1.procs[p].atts[0] == a;
    DropNothing(st1, p, a, addr, len);
  }

  lemma DropNothing(st: Shm, p: Pid, a: Att, addr: nat, len: nat)
    requires p in st.procs && st.procs[p].atts == [a] && !Within(a, addr, len) && a.s in st.segs
    ensures DropWithin(st, p, addr, len, 0) == st
  {
    assert DropWithin(st, p, addr, len, 1) == st;
  }

  const TWO := 2 * PAGE
  const EMPTY_PROC := Proc(TWO, map[], [])
  const SEG := Seg(Some(TWO), 0, 0, false, 1, 0)
  const CREATED := Shm(map[1 := SEG], {1}, map[], 2, map[0 := EMPTY_PROC], map[])

  /** A process with two pages of memory, and a segment of two pages. */
  lemma Created() returns (run: seq<Shm>, ops: seq<Op>)
    ensures IsRun(run, ops) && |ops| == 3 && run[3] == CREATED
  {
    ops := [OpStart(0), OpGrow(0, TWO), OpCreate(TWO, true)];
    var s1, s2 := EMPTY.(procs := map[0 := Proc(0, map[], [])]), EMPTY.(procs := map[0 := EMPTY_PROC]);
    assert Inv(EMPTY);
    assert Step(EMPTY, ops[0]) == s1;
    StepInv(EMPTY, ops[0]);
    assert s1.procs[0 := s1.procs[0].(committed := TWO)] == map[0 := EMPTY_PROC];
    StepInv(s1, ops[1]);
    assert AlignUp(TWO) == TWO;
    assert Create(s2, TWO, true).st.segs == map[1 := SEG];
    run := [EMPTY, s1, s2, CREATED];
  }

  /** The segment attached to the process. */
  lemma AttachedThere(st: Shm) returns (st': Shm)
    requires st == CREATED && Inv(st)
    ensures Legal(st, OpAttach(0, 1, 0, true)) && st' == Step(st, OpAttach(0, 1, 0, true))
    ensures 0 in st'.procs && st'.procs.Keys == {0} && st'.procs[0].atts == [Att(0, TWO, 1)]
    ensures st'.procs[0].committed == TWO
    ensures st'.table == {1} && st'.names == map[] && st'.files == map[] && st'.next == 2
    ensures st'.segs == map[1 := SEG.(attached := 1)]
    ensures forall page: nat :: page in st'.procs[0].pages <==> page < 2
  {
    hide CountsOk, Covered;
    st' := Step(st, OpAttach(0, 1, 0, true));
    assert st' == MapLocked(st, 0, 1, 0, TWO, true).st;
    var pr := MapRange(EMPTY_PROC, 1, TWO, 0, TWO, true).value;
    assert TWO / PAGE == 2 && pr.pages.Keys == PageRange(0, 2);
    var st1 := st.(procs := st.procs[0 := pr]);
    RemapCounts(st, 0, pr);
    assert DropWithin(st1, 0, 0, TWO, 0) == st1;
    assert st' == Append(st1, 0, Att(0, TWO, 1));
    assert st'.segs == map[1 := SEG.(attached := 1)];
    assert [] + [Att(0, TWO, 1)] == [Att(0, TWO, 1)];
    assert st'.procs[0].pages == pr.pages;
    forall page: nat ensures page in pr.pages <==> page < 2 {
      assert page in pr.pages.Keys <==> page in PageRange(0, 2);
    }
  }

  /** Removed, and then unmapped by halves. */
  lemma Halves(st: Shm) returns (s1: Shm, s2: Shm, s3: Shm)
    requires Inv(st) && 0 in st.procs && st.procs.Keys == {0} && st.procs[0].atts == [Att(0, TWO, 1)]
    requires st.procs[0].committed == TWO && st.table == {1} && st.names == map[] && st.files == map[]
    requires st.segs == map[1 := SEG.(attached := 1)] && forall page: nat :: page in st.procs[0].pages <==> page < 2
    ensures StepsTo(st, OpRemove(1), s1) && StepsTo(s1, OpUnmap(0, 0, PAGE, true), s2)
    ensures StepsTo(s2, OpUnmap(0, PAGE, PAGE, true), s3)
    ensures 1 in s3.segs && s3.segs[1].removed && NoPageShows(s3, 1) && Holders(s3.files, 1) == {} && 1 in s3.table
  {
    hide CountsOk, Covered;
    s1 := Remove(st, 1).st;
    RemoveInvExactly(st, 1);
    s2 := Unmap(s1, 0, 0, PAGE, true).st;
    HalfUnmap(s1, 0, Att(0, TWO, 1), 0, PAGE);
    UnmapInv(s1, 0, 0, PAGE, true);
    s3 := Unmap(s2, 0, PAGE, PAGE, true).st;
    HalfUnmap(s2, 0, Att(0, TWO, 1), PAGE, PAGE);
    assert forall page :: page !in s3.procs[0].pages;
  }

  /**
   A removed segment that no page shows, and that is not freed: its two pages are unmapped one at a time, and
   neither range holds the attachment.
   */
  lemma UnmappedByHalves() returns (run: seq<Shm>, ops: seq<Op>)
    ensures IsRun(run, ops) && |run| == 8
    ensures var st := run[7];
            && 1 in st.segs && st.segs[1].removed && NoPageShows(st, 1) && Holders(st.files, 1) == {} && 1 in st.table
  {
    run, ops := Created();
    RunInv(run, ops, 3);
    var st := AttachedThere(run[3]);
    hide Inv, NoPageShows, IsRun, Step, Legal;
    StepInv(run[3], OpAttach(0, 1, 0, true));
    var s1, s2, s3 := Halves(st);
    run, ops := Longer(run, ops, OpAttach(0, 1, 0, true), st);
    run, ops := Longer(run, ops, OpRemove(1), s1);
    run, ops := Longer(run, ops, OpUnmap(0, 0, PAGE, true), s2);
    run, ops := Longer(run, ops, OpUnmap(0, PAGE, PAGE, true), s3);
  }

  lemma Longer(run: seq<Shm>, ops: seq<Op>, op: Op, st: Shm) returns (run': seq<Shm>, ops': seq<Op>)
    requires |run| == |ops| + 1 && IsRun(run, ops) && StepsTo(run[|ops|], op, st)
    ensures IsRun(run', ops') && run' == run + [st] && ops' == ops + [op]
  {
    hide StepsTo;
    run', ops' := run + [st], ops + [op];
  }
}
