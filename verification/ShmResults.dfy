/**
 What the operations on shared memory answer and what they change: exactly when each succeeds, exactly when
 it gives which error, and what a page shows afterwards.
 */
module ShmResults {
  import opened Common
  import opened ShmState
  import opened ShmOps
  import opened ShmTheorems
  import opened ShmPages

  /** The segments other than s, and what s is apart from its counts and freeing, are as they were. */
  ghost predicate OnlySeg(st: Shm, st': Shm, s: SegId) {
    && st.segs.Keys <= st'.segs.Keys
    && forall x :: x in st.segs && x != s ==> st'.segs[x] == st.segs[x] && (x in st'.table <==> x in st.table)
  }

  // ---- names and descriptors ----

  /** f is a new file on the segment that name leads to: the one it led to before or, if it led to none, a new one. */
  ghost predicate OpenedOn(st: Shm, st': Shm, f: FileId, name: string) {
    && st'.files.Keys == st.files.Keys + {f} && (forall g :: g in st.files ==> st'.files[g] == st.files[g])
    && name in st'.names && st'.files[f] == st'.names[name]
    && st'.names.Keys == st.names.Keys + {name} && (forall n :: n in st.names ==> st'.names[n] == st.names[n])
    && st'.procs == st.procs
    && var s := st'.names[name];
    && s in st'.segs && !st'.segs[s].removed && OnlySeg(st, st', s)
    && if name in st.names then s in st.segs && st'.segs[s].size == st.segs[s].size
       else s !in st.segs && st'.segs[s].size == None
  }

  /**
   Opening a name: refused exactly if it is there and was to be made new, or is not there and was not to be
   made; otherwise the new file is on the segment the name leads to, which is the one it led to before, if any.
   */
  lemma OpenResult(st: Shm, f: FileId, name: string, creat: bool, excl: bool)
    requires Inv(st) && f !in st.files
    ensures var out := Open(st, f, name, creat, excl);
            && (out.ret == Err(EEXIST) <==> name in st.names && creat && excl)
            && (out.ret == Err(ENOENT) <==> name !in st.names && !creat)
            && (out.ret.Err? ==> out.st == st && (out.ret == Err(EEXIST) || out.ret == Err(ENOENT)))
            && (out.ret.Ok? ==> out.ret == Ok(f) && OpenedOn(st, out.st, f, name))
  {
    hide SegOk, AttOk, Covered, OpenedOn;
    if name in st.names && !(creat && excl) {
      OpenThere(st, f, name);
    } else if creat {
      NextIsNew(st);
      OpenNew(st, f, name);
    }
  }

  lemma OpenThere(st: Shm, f: FileId, name: string)
    requires name in st.names && st.names[name] in st.segs && !st.segs[st.names[name]].removed && f !in st.files
    ensures OpenedOn(st, AddFile(st, f, st.names[name]), f, name)
  {
  }

  lemma OpenNew(st: Shm, f: FileId, name: string)
    requires st.next !in st.segs && f !in st.files
    ensures name !in st.names ==>
              OpenedOn(st, AddFile(NewSegment(st).(names := st.names[name := st.next]), f, st.next), f, name)
  {
  }

  /** Unlinking a name: it is gone, no other is, and its segment is marked, and freed exactly if nothing uses it. */
  lemma UnlinkResult(st: Shm, name: string)
    requires Inv(st)
    ensures var out := Unlink(st, name);
            if name !in st.names then out == Out(st, Err(ENOENT))
            else
              && out.ret == Ok(0) && out.st.names == st.names - {name}
              && RemovedNow(st, out.st, st.names[name])
  {
    hide SegOk, AttOk, Covered, SetRemoved;
    if name in st.names {
      var st1 := st.(names := st.names - {name});
      assert CountsOk(st1) by {
        NamesCounts(st, st1.names);
      }
      RemovedThere(st1, st.names[name]);
    }
  }

  /** The segment is marked as removed, and out of the table exactly if no attachment and no file uses it. */
  ghost predicate RemovedNow(st: Shm, st': Shm, s: SegId)
    requires s in st.segs
  {
    && s in st'.segs && st'.segs[s].removed && OnlySeg(st, st', s) && st'.segs.Keys == st.segs.Keys
    && st'.procs == st.procs && st'.files == st.files
    && (s in st'.table <==> Attached(st.procs, s) > 0 || Holders(st.files, s) != {})
    && (s in st'.table ==> st'.segs[s].size == st.segs[s].size)
  }

  /** Removing by id: refused exactly if there is no such segment, or it is removed already; names stay. */
  lemma RemoveResult(st: Shm, id: SegId)
    requires Inv(st)
    ensures var out := Remove(st, id);
            if !(id in st.table && !st.segs[id].removed) then out == Out(st, Err(ENOENT))
            else out.ret == Ok(0) && out.st.names == st.names && RemovedNow(st, out.st, id)
  {
    hide SegOk, AttOk, Covered, SetRemoved;
    if id in st.table {
      RemovedThere(st, id);
    }
  }

  lemma RemovedThere(st: Shm, s: SegId)
    requires CountsOk(st) && s in st.table
    ensures RemovedNow(st, SetRemoved(st, s), s) && SetRemoved(st, s).names == st.names
  {
    hide AttOk, Attached, Holders;
    assert SegOk(st, s);
    NoHolders(st.files, s);
  }

  lemma NoHolders(files: map<FileId, SegId>, s: SegId)
    ensures |Holders(files, s)| == 0 <==> Holders(files, s) == {}
  {
  }

  /** Creating: a segment that was not there, without a name, as large as asked for, in whole pages. */
  lemma CreateResult(st: Shm, size: nat, memOk: bool)
    requires Inv(st)
    ensures var out := Create(st, size, memOk);
            if size == 0 then out == Out(st, Err(EINVAL))
            else if !memOk then out == Out(st, Err(ENOMEM))
            else
              && out.ret.Ok? && out.ret.value !in st.segs && OnlySeg(st, out.st, out.ret.value)
              && out.ret.value in out.st.table && !out.st.segs[out.ret.value].removed
              && SizedFor(out.st, out.ret.value, size)
              && out.st.names == st.names && out.st.files == st.files && out.st.procs == st.procs
  {
    hide SegOk, AttOk, Covered;
    NextIsNew(st);
  }

  /** The segment has the fewest whole pages that hold size bytes. */
  predicate SizedFor(st: Shm, s: SegId, size: nat) {
    s in st.segs && st.segs[s].size.Some? && var n := st.segs[s].size.value; n % 65536 == 0 && size <= n < size + 65536
  }

  /** Sizing through a file: once, to whole pages; after that only a size that fits is accepted, and nothing changes. */
  lemma TruncateResult(st: Shm, f: FileId, size: nat, memOk: bool)
    requires Inv(st) && f in st.files
    ensures var out, s := Truncate(st, f, size, memOk), st.files[f];
            if st.segs[s].size.Some? then
              out == Out(st, if size <= st.segs[s].size.value then Ok(0) else Err(EINVAL))
            else if size == 0 then out == Out(st, Ok(0))
            else if !memOk then out == Out(st, Err(ENOMEM))
            else
              && out.ret == Ok(0) && OnlySeg(st, out.st, s) && SizedFor(out.st, s, size)
              && out.st.names == st.names && out.st.files == st.files && out.st.procs == st.procs
              && out.st.table == st.table && out.st.segs[s].removed == st.segs[s].removed
  {
    hide SegOk, AttOk, Covered;
  }

  // ---- mapping ----

  /** What a map of the first len bytes of a segment of size bytes at addr takes. */
  predicate CanMap(pr: Proc, size: nat, addr: nat, len: nat) {
    addr % 65536 == 0 && len % 65536 == 0 && len > 0 && len <= size && addr + len <= pr.committed
  }

  /**
   A map succeeds exactly if the range is aligned, not empty, within the segment and within the process's memory
   and the host maps it. Then each page of the range shows the page of the segment at the same distance from the
   start, every other page what it showed, and the attachments are those not within the range and the new one.
   */
  lemma MapResult(st: Shm, p: Pid, s: SegId, addr: nat, len: nat, ok: bool)
    requires Inv(st) && p in st.procs && s in st.segs && st.segs[s].size.Some?
    ensures var out, pr := MapLocked(st, p, s, addr, len, ok), st.procs[p];
            if !(CanMap(pr, st.segs[s].size.value, addr, len) && ok) then out == Out(st, Err(EINVAL))
            else
              && out.ret == Ok(0) && p in out.st.procs && out.st.procs.Keys == st.procs.Keys
              && (forall q :: q in st.procs && q != p ==> out.st.procs[q] == st.procs[q])
              && out.st.names == st.names && out.st.files == st.files
              && (forall page: nat ::
                    if addr <= page * 65536 < addr + len
                    then page in out.st.procs[p].pages && out.st.procs[p].pages[page] == (s, page - addr / 65536)
                    else SamePage(pr, out.st.procs[p], page))
              && (forall a :: a in out.st.procs[p].atts <==>
                    a == Att(addr, len, s) || (a in pr.atts && !(addr <= a.addr && a.addr + a.len <= addr + len)))
  {
    hide CountsOk, Covered;
    var pr, size := st.procs[p], st.segs[s].size.value;
    if CanMap(pr, size, addr, len) && ok {
      MapProc(st, p, s, addr, len, ok);
      MapOthers(st, p, s, addr, len, ok);
      hide MapLocked, MapRange;
      var pr' := MapLocked(st, p, s, addr, len, ok).st.procs[p];
      forall page: nat
        ensures if InRange(page, addr, len) then page in pr'.pages && pr'.pages[page] == (s, page - addr / PAGE)
                else SamePage(pr, pr', page)
      {
        MapRangePages(pr, s, size, addr, len, ok, page);
      }
      forall a ensures a in pr'.atts <==> a == Att(addr, len, s) || (a in pr.atts && !Within(a, addr, len)) {
        KeptExact(pr.atts, addr, len, a);
      }
    }
  }

  predicate SamePage(pr: Proc, pr': Proc, page: nat) {
    (page in pr'.pages <==> page in pr.pages) && (page in pr.pages ==> pr'.pages[page] == pr.pages[page])
  }

  lemma MapOthers(st: Shm, p: Pid, s: SegId, addr: nat, len: nat, ok: bool)
    requires CountsOk(st) && p in st.procs && s in st.segs && st.segs[s].size.Some?
    requires CanMap(st.procs[p], st.segs[s].size.value, addr, len) && ok
    ensures var out := MapLocked(st, p, s, addr, len, ok);
            out.ret == Ok(0) && out.st.names == st.names && out.st.files == st.files && p in out.st.procs
  {
    hide CountsOk;
    var pr := MapRange(st.procs[p], s, st.segs[s].size.value, addr, len, ok).value;
    RemapCounts(st, p, pr);
    DropWithinOk(st.(procs := st.procs[p := pr]), p, addr, len, 0);
  }

  /** Attaching by id maps the whole segment, and is refused exactly if it is not there, removed, or without memory. */
  lemma AttachResult(st: Shm, p: Pid, id: SegId, addr: nat, ok: bool)
    requires Inv(st) && p in st.procs
    ensures var out := Attach(st, p, id, addr, ok);
            if !(id in st.table && !st.segs[id].removed && st.segs[id].size.Some?) then out == Out(st, Err(ENOENT))
            else out == MapLocked(st, p, id, addr, st.segs[id].size.value, ok)
  {
  }

  /** Mapping a file maps its segment, removed or not, and is refused exactly if that has no memory. */
  lemma MapFdResult(st: Shm, p: Pid, f: FileId, addr: nat, len: nat, ok: bool)
    requires Inv(st) && p in st.procs && f in st.files
    ensures var out, s := MapFd(st, p, f, addr, len, ok), st.files[f];
            if st.segs[s].size.None? then out == Out(st, Err(EINVAL)) else out == MapLocked(st, p, s, addr, len, ok)
  {
  }

  /** Unmapping takes the pages of the range away, and the attachments within it, and nothing else. */
  lemma UnmapResult(st: Shm, p: Pid, addr: nat, len: nat, ok: bool)
    requires Inv(st) && p in st.procs
    ensures var out, pr := Unmap(st, p, addr, len, ok), st.procs[p];
            if !(addr % 65536 == 0 && len % 65536 == 0 && len > 0 && addr + len <= pr.committed && ok)
            then out == Out(st, Err(EINVAL))
            else
              && out.ret == Ok(0) && p in out.st.procs && out.st.procs.Keys == st.procs.Keys
              && (forall q :: q in st.procs && q != p ==> out.st.procs[q] == st.procs[q])
              && (forall page: nat ::
                    if addr <= page * 65536 < addr + len then page !in out.st.procs[p].pages
                    else SamePage(pr, out.st.procs[p], page))
              && (forall a :: a in out.st.procs[p].atts <==>
                    a in pr.atts && !(addr <= a.addr && a.addr + a.len <= addr + len))
  {
    hide CountsOk, Covered;
    var pr := st.procs[p];
    if UnmapRange(pr, addr, len, ok).Some? {
      UnmapProc(st, p, addr, len, ok);
      hide Unmap;
      var pr' := Unmap(st, p, addr, len, ok).st.procs[p];
      forall page: nat
        ensures if InRange(page, addr, len) then page !in pr'.pages else SamePage(pr, pr', page)
      {
      }
      forall a ensures a in pr'.atts <==> a in pr.atts && !Within(a, addr, len) {
        KeptExact(pr.atts, addr, len, a);
      }
    }
  }

  /**
   Two processes that map one segment, at whatever addresses and lengths, see the same page of it at the same
   distance from where each mapped it.
   */
  lemma SharedView(st: Shm, p: Pid, a: nat, alen: nat, q: Pid, b: nat, blen: nat, s: SegId, k: nat)
    requires Inv(st) && p in st.procs && q in st.procs && p != q && s in st.table && st.segs[s].size.Some?
    requires !st.segs[s].removed || st.segs[s].fds > 0
    requires CanMap(st.procs[p], st.segs[s].size.value, a, alen) && CanMap(st.procs[q], st.segs[s].size.value, b, blen)
    requires k * PAGE < alen && k * PAGE < blen
    ensures var st1 := MapLocked(st, p, s, a, alen, true).st;
            && Inv(st1) && q in st1.procs && s in st1.segs && st1.segs[s].size.Some?
            && var st2 := MapLocked(st1, q, s, b, blen, true).st;
            && p in st2.procs && q in st2.procs
            && a / PAGE + k in st2.procs[p].pages && b / PAGE + k in st2.procs[q].pages
            && st2.procs[p].pages[a / PAGE + k] == st2.procs[q].pages[b / PAGE + k] == (s, k)
  {
    MapLockedInv(st, p, s, a, alen, true);
    MapResult(st, p, s, a, alen, true);
    StaysSized(st, p, s, a, alen);
    hide Inv, MapLocked;
    var st1 := MapLocked(st, p, s, a, alen, true).st;
    MapResult(st1, q, s, b, blen, true);
    PageAt(a, k);
    PageAt(b, k);
    assert a <= (a / PAGE + k) * PAGE < a + alen && b <= (b / PAGE + k) * PAGE < b + blen;
  }

  lemma PageAt(addr: nat, k: nat)
    requires addr % PAGE == 0
    ensures (addr / PAGE + k) * PAGE == addr + k * PAGE
  {
  }

  /** Mapping a segment that is not removed, or open, keeps it and its size. */
  lemma StaysSized(st: Shm, p: Pid, s: SegId, addr: nat, len: nat)
    requires Inv(st) && p in st.procs && s in st.table && s in st.segs && st.segs[s].size.Some?
    requires !st.segs[s].removed || st.segs[s].fds > 0
    ensures var st1 := MapLocked(st, p, s, addr, len, true).st; s in st1.segs && st1.segs[s].size == st.segs[s].size
  {
    hide CountsOk, Covered;
    var pr := MapRange(st.procs[p], s, st.segs[s].size.value, addr, len, true);
    if pr.Some? {
      RemapCounts(st, p, pr.value);
      DropWithinOk(st.(procs := st.procs[p := pr.value]), p, addr, len, 0);
    }
  }
}
