/** The operations on shared memory, each one section under the table's lock, and what every run of them keeps. */
module ShmOps {
  import opened Common
  import opened ShmState

  datatype Errno = EINVAL | ENOMEM | ENOENT | EEXIST

  datatype Ret = Ok(value: nat) | Err(error: Errno)

  datatype Out = Out(st: Shm, ret: Ret)

  function AlignUp(n: nat): (r: nat)
    ensures r % PAGE == 0 && n <= r < n + PAGE
  {
    (n + PAGE - 1) / PAGE * PAGE
  }

  // ---- segments, names and descriptors ----

  function NewSegment(st: Shm): Shm {
    st.(segs := st.segs[st.next := Seg(None, 0, 0, false, 0, 0)], table := st.table + {st.next}, next := st.next + 1)
  }

  function SetSize(st: Shm, s: SegId, size: nat): Shm
    requires s in st.segs
  {
    st.(segs := st.segs[s := st.segs[s].(size := Some(size), opens := st.segs[s].opens + 1)])
  }

  /** memOk: the host could make the segment's memory. */
  function Create(st: Shm, size: nat, memOk: bool): Out {
    if size == 0 then Out(st, Err(EINVAL))
    else if !memOk then Out(st, Err(ENOMEM))
    else Out(SetSize(NewSegment(st), st.next, AlignUp(size)), Ok(st.next))
  }

  function SetRemoved(st: Shm, s: SegId): Shm
    requires s in st.segs
  {
    MaybeFree(st.(segs := st.segs[s := st.segs[s].(removed := true)]), s)
  }

  function Remove(st: Shm, id: SegId): Out {
    if id !in st.table || id !in st.segs || st.segs[id].removed then Out(st, Err(ENOENT))
    else Out(SetRemoved(st, id), Ok(0))
  }

  function Unlink(st: Shm, name: string): Out {
    if name !in st.names || st.names[name] !in st.segs then Out(st, Err(ENOENT))
    else Out(SetRemoved(st.(names := st.names - {name}), st.names[name]), Ok(0))
  }

  function AddFile(st: Shm, f: FileId, s: SegId): Shm
    requires s in st.segs
  {
    st.(segs := st.segs[s := st.segs[s].(fds := st.segs[s].fds + 1)], files := st.files[f := s])
  }

  /** open; f is the new shm file. */
  function Open(st: Shm, f: FileId, name: string, creat: bool, excl: bool): Out {
    if name in st.names && st.names[name] in st.segs then
      if creat && excl then Out(st, Err(EEXIST)) else Out(AddFile(st, f, st.names[name]), Ok(f))
    else if !creat then Out(st, Err(ENOENT))
    else
      var st1 := NewSegment(st);
      Out(AddFile(st1.(names := st.names[name := st.next]), f, st.next), Ok(f))
  }

  /** release of the shm file f. */
  function Release(st: Shm, f: FileId): Shm
    requires f in st.files && st.files[f] in st.segs
  {
    var s := st.files[f];
    MaybeFree(st.(segs := st.segs[s := st.segs[s].(fds := st.segs[s].fds - 1)], files := st.files - {f}), s)
  }

  function Truncate(st: Shm, f: FileId, size: nat, memOk: bool): Out
    requires f in st.files && st.files[f] in st.segs
  {
    var s := st.files[f];
    match st.segs[s].size
    case Some(has) => Out(st, if size <= has then Ok(0) else Err(EINVAL))
    case None =>
      if size == 0 then Out(st, Ok(0))
      else if !memOk then Out(st, Err(ENOMEM))
      else Out(SetSize(st, s, AlignUp(size)), Ok(0))
  }

  // ---- mapping ----

  predicate Within(a: Att, addr: nat, len: nat) {
    a.addr >= addr && a.addr + a.len <= addr + len
  }

  predicate InRange(page: nat, addr: nat, len: nat) {
    addr <= page * PAGE < addr + len
  }

  /** The pages from lo up to hi. */
  function PageRange(lo: nat, hi: nat): (r: set<nat>)
    ensures forall page :: page in r <==> lo <= page < hi
    decreases hi - lo
  {
    if lo >= hi then {} else {lo} + PageRange(lo + 1, hi)
  }

  /** MapRange: the pages that show s afterwards, or an error. mmapOk: the host call succeeded. */
  function MapRange(pr: Proc, s: SegId, size: nat, addr: nat, len: nat, mmapOk: bool): (r: Option<Proc>)
    ensures r.Some? ==> r.value.atts == pr.atts
  {
    if addr % PAGE != 0 || len % PAGE != 0 || len == 0 || len > size || addr + len > pr.committed || !mmapOk then None
    else
      var lo, hi := addr / PAGE, (addr + len) / PAGE;
      Some(pr.(pages := pr.pages + map page | page in PageRange(lo, hi) :: (s, page - lo)))
  }

  /** Unmap; the host refuses an empty range. */
  function UnmapRange(pr: Proc, addr: nat, len: nat, mmapOk: bool): Option<Proc> {
    if addr % PAGE != 0 || len % PAGE != 0 || addr + len > pr.committed || len == 0 || !mmapOk then None
    else Some(pr.(pages := map page | page in pr.pages && !InRange(page, addr, len) :: pr.pages[page]))
  }

  /** dropAttachmentsLocked, from p's k-th attachment on. */
  function DropWithin(st: Shm, p: Pid, addr: nat, len: nat, k: nat): Shm
    requires p in st.procs && k <= |st.procs[p].atts|
    requires forall i :: 0 <= i < |st.procs[p].atts| ==> st.procs[p].atts[i].s in st.segs
    decreases |st.procs[p].atts| - k
  {
    if k == |st.procs[p].atts| then st
    else if Within(st.procs[p].atts[k], addr, len) then DropWithin(Detach(st, p, k), p, addr, len, k)
    else DropWithin(st, p, addr, len, k + 1)
  }

  function Append(st: Shm, p: Pid, a: Att): Shm
    requires p in st.procs && a.s in st.segs
  {
    st.(procs := st.procs[p := st.procs[p].(atts := st.procs[p].atts + [a])],
        segs := st.segs[a.s := st.segs[a.s].(attached := st.segs[a.s].attached + 1)])
  }

  ghost function MapLocked(st: Shm, p: Pid, s: SegId, addr: nat, len: nat, mmapOk: bool): Out
    requires CountsOk(st) && p in st.procs && s in st.segs && st.segs[s].size.Some?
  {
    match MapRange(st.procs[p], s, st.segs[s].size.value, addr, len, mmapOk)
    case None => Out(st, Err(EINVAL))
    case Some(pr) =>
      var st1 := st.(procs := st.procs[p := pr]);
      RemapCounts(st, p, pr);
      DropWithinOk(st1, p, addr, len, 0);
      Out(Append(DropWithin(st1, p, addr, len, 0), p, Att(addr, len, s)), Ok(0))
  }

  ghost function Attach(st: Shm, p: Pid, id: SegId, addr: nat, mmapOk: bool): Out
    requires CountsOk(st) && p in st.procs
  {
    if id !in st.table || st.segs[id].removed || st.segs[id].size.None? then Out(st, Err(ENOENT))
    else MapLocked(st, p, id, addr, st.segs[id].size.value, mmapOk)
  }

  ghost function MapFd(st: Shm, p: Pid, f: FileId, addr: nat, len: nat, mmapOk: bool): Out
    requires CountsOk(st) && p in st.procs && f in st.files
  {
    if st.segs[st.files[f]].size.None? then Out(st, Err(EINVAL))
    else MapLocked(st, p, st.files[f], addr, len, mmapOk)
  }

  ghost function Unmap(st: Shm, p: Pid, addr: nat, len: nat, mmapOk: bool): Out
    requires CountsOk(st) && p in st.procs
  {
    match UnmapRange(st.procs[p], addr, len, mmapOk)
    case None => Out(st, Err(EINVAL))
    case Some(pr) =>
      var st1 := st.(procs := st.procs[p := pr]);
      RemapCounts(st, p, pr);
      Out(DropWithin(st1, p, addr, len, 0), Ok(0))
  }

  /** detachAll, of a process whose memory is gone. */
  function DetachAll(st: Shm, p: Pid): Shm
    requires p in st.procs
    requires forall i :: 0 <= i < |st.procs[p].atts| ==> st.procs[p].atts[i].s in st.segs
    decreases |st.procs[p].atts|
  {
    if st.procs[p].atts == [] then st else DetachAll(Detach(st, p, 0), p)
  }

  // ---- what the loops do ----

  /** The attachments that are not within the range, in order. */
  function Kept(atts: seq<Att>, addr: nat, len: nat): seq<Att> {
    if atts == [] then []
    else if Within(atts[0], addr, len) then Kept(atts[1..], addr, len)
    else [atts[0]] + Kept(atts[1..], addr, len)
  }

  lemma {:induction false} KeptExact(atts: seq<Att>, addr: nat, len: nat, a: Att)
    ensures a in Kept(atts, addr, len) <==> a in atts && !Within(a, addr, len)
  {
    if atts != [] {
      KeptExact(atts[1..], addr, len, a);
      assert atts == [atts[0]] + atts[1..];
    }
  }

  /** Only attachments, and the counts and freeing that go with them, differ. */
  ghost predicate SameButAtts(st: Shm, st': Shm, p: Pid) {
    && p in st.procs && p in st'.procs
    && st'.names == st.names && st'.files == st.files && st'.next == st.next && st'.segs.Keys == st.segs.Keys
    && st'.table <= st.table
    && st'.procs == st.procs[p := st.procs[p].(atts := st'.procs[p].atts)]
    && forall s :: s in st.segs ==>
         && st'.segs[s].fds == st.segs[s].fds && st'.segs[s].removed == st.segs[s].removed
         && st'.segs[s].opens == st.segs[s].opens
         && (s in st.table && !(st.segs[s].removed && st.segs[s].fds == 0) ==>
               s in st'.table && st'.segs[s].size == st.segs[s].size)
  }

  lemma RemapCounts(st: Shm, p: Pid, pr: Proc)
    requires CountsOk(st) && p in st.procs && pr.atts == st.procs[p].atts
    ensures CountsOk(st.(procs := st.procs[p := pr]))
  {
    var st' := st.(procs := st.procs[p := pr]);
    forall s | s in st'.segs ensures SegOk(st', s) {
      assert SegOk(st, s);
      AttachedUpdate(st.procs, p, pr, s);
    }
    forall q, k | q in st'.procs && 0 <= k < |st'.procs[q].atts| ensures AttOk(st', st'.procs[q].atts[k]) {
      assert AttOk(st, st.procs[q].atts[k]);
    }
  }

  lemma SameRefl(st: Shm, p: Pid)
    requires p in st.procs
    ensures SameButAtts(st, st, p)
  {
  }

  lemma SameTrans(a: Shm, b: Shm, c: Shm, p: Pid)
    requires SameButAtts(a, b, p) && SameButAtts(b, c, p)
    ensures SameButAtts(a, c, p)
  {
  }

  lemma AttsInSegs(st: Shm, p: Pid)
    requires CountsOk(st) && p in st.procs
    ensures forall i :: 0 <= i < |st.procs[p].atts| ==> st.procs[p].atts[i].s in st.segs
  {
    assert forall i :: 0 <= i < |st.procs[p].atts| ==> AttOk(st, st.procs[p].atts[i]);
  }

  lemma DetachSame(st: Shm, p: Pid, k: nat)
    requires p in st.procs && k < |st.procs[p].atts| && st.procs[p].atts[k].s in st.segs
    ensures SameButAtts(st, Detach(st, p, k), p) && p in Detach(st, p, k).procs
    ensures Detach(st, p, k).procs[p].atts == st.procs[p].atts[..k] + st.procs[p].atts[k + 1..]
  {
  }

  lemma {:induction false} DropWithinOk(st: Shm, p: Pid, addr: nat, len: nat, k: nat)
    requires CountsOk(st) && p in st.procs && k <= |st.procs[p].atts|
    ensures forall i :: 0 <= i < |st.procs[p].atts| ==> st.procs[p].atts[i].s in st.segs
    ensures var st' := DropWithin(st, p, addr, len, k);
            && CountsOk(st') && SameButAtts(st, st', p)
            && st'.procs[p].atts == st.procs[p].atts[..k] + Kept(st.procs[p].atts[k..], addr, len)
    decreases |st.procs[p].atts| - k
  {
    hide CountsOk, Detach, SameButAtts;
    var atts := st.procs[p].atts;
    AttsInSegs(st, p);
    SameRefl(st, p);
    if k < |atts| {
      assert atts[k..][0] == atts[k] && atts[k..][1..] == atts[k + 1..];
      if Within(atts[k], addr, len) {
        DetachOk(st, p, k);
        DetachSame(st, p, k);
        var atts' := atts[..k] + atts[k + 1..];
        assert atts'[..k] == atts[..k] && atts'[k..] == atts[k + 1..];
        var st1 := Detach(st, p, k);
        DropWithinOk(st1, p, addr, len, k);
        SameTrans(st, st1, DropWithin(st1, p, addr, len, k), p);
      } else {
        assert atts[..k + 1] == atts[..k] + [atts[k]];
        DropWithinOk(st, p, addr, len, k + 1);
      }
    }
  }

  lemma {:induction false} DetachAllOk(st: Shm, p: Pid)
    requires CountsOk(st) && p in st.procs
    ensures forall i :: 0 <= i < |st.procs[p].atts| ==> st.procs[p].atts[i].s in st.segs
    ensures var st' := DetachAll(st, p);
            CountsOk(st') && SameButAtts(st, st', p) && st'.procs[p].atts == []
    decreases |st.procs[p].atts|
  {
    hide CountsOk, Detach, SameButAtts;
    var atts := st.procs[p].atts;
    AttsInSegs(st, p);
    SameRefl(st, p);
    if atts != [] {
      DetachOk(st, p, 0);
      DetachSame(st, p, 0);
      var st1 := Detach(st, p, 0);
      DetachAllOk(st1, p);
      SameTrans(st, st1, DetachAll(st1, p), p);
    }
  }
}
