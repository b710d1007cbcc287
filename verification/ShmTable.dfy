/** The shared memory table as the object it is, its methods proved against the operations. */
module ShmTable {
  import opened Common
  import opened ShmState
  import opened ShmOps
  import Theorems = ShmTheorems

  class Table {
    var segs: map<SegId, Seg>
    var table: set<SegId>
    var names: map<string, SegId>
    var next: SegId
    var procs: map<Pid, Proc>
    var files: map<FileId, SegId>

    ghost function State(): Shm
      reads this
    {
      Shm(segs, table, names, next, procs, files)
    }

    ghost predicate Valid()
      reads this
    {
      Inv(State())
    }

    constructor ()
      ensures Valid() && State() == Theorems.EMPTY
    {
      segs, table, names, next, procs, files := map[], {}, map[], 1, map[], map[];
    }

    method FreeIfUnused(s: SegId)
      requires s in segs
      modifies this`segs, this`table
      ensures State() == MaybeFree(old(State()), s)
    {
      var g := segs[s];
      if g.removed && g.attached == 0 && g.fds == 0 {
        table := table - {s};
        segs := segs[s := g.(size := None, closes := g.closes + if g.size.Some? then 1 else 0)];
      }
    }

    method CountDown(s: SegId)
      requires s in segs
      modifies this`segs, this`table
      ensures var g := old(segs)[s];
              State() == MaybeFree(old(State()).(segs := old(segs)[s := g.(attached := g.attached - 1)]), s)
    {
      segs := segs[s := segs[s].(attached := segs[s].attached - 1)];
      FreeIfUnused(s);
    }

    method AddSegment() returns (s: SegId)
      modifies this
      ensures State() == NewSegment(old(State())) && s == old(next)
    {
      s := next;
      segs := segs[s := Seg(None, 0, 0, false, 0, 0)];
      table := table + {s};
      next := next + 1;
    }

    method CreateSegment(size: nat, memOk: bool) returns (r: Ret)
      requires Valid()
      modifies this
      ensures Out(State(), r) == Create(old(State()), size, memOk) && Valid()
    {
      hide SegOk, AttOk, Covered;
      Theorems.CreateInv(State(), size, memOk);
      if size == 0 {
        return Err(EINVAL);
      }
      if !memOk {
        return Err(ENOMEM);
      }
      var s := AddSegment();
      segs := segs[s := segs[s].(size := Some(AlignUp(size)), opens := segs[s].opens + 1)];
      return Ok(s);
    }

    /** remove; the invariant stays exactly for ids no name leads to. */
    method RemoveSegment(id: SegId) returns (r: Ret)
      requires Valid()
      modifies this
      ensures Out(State(), r) == Remove(old(State()), id)
      ensures Valid() <==> forall n :: n in names ==> names[n] != id
    {
      hide SegOk, AttOk, Covered;
      Theorems.RemoveInvExactly(State(), id);
      if id !in table || segs[id].removed {
        return Err(ENOENT);
      }
      segs := segs[id := segs[id].(removed := true)];
      FreeIfUnused(id);
      return Ok(0);
    }

    method OpenName(f: FileId, name: string, creat: bool, excl: bool) returns (r: Ret)
      requires Valid() && f !in files
      modifies this
      ensures Out(State(), r) == Open(old(State()), f, name, creat, excl) && Valid()
    {
      hide SegOk, AttOk, Covered;
      Theorems.OpenInv(State(), f, name, creat, excl);
      var s;
      if name in names {
        if creat && excl {
          return Err(EEXIST);
        }
        s := names[name];
      } else {
        if !creat {
          return Err(ENOENT);
        }
        s := AddSegment();
        names := names[name := s];
      }
      segs := segs[s := segs[s].(fds := segs[s].fds + 1)];
      files := files[f := s];
      return Ok(f);
    }

    method UnlinkName(name: string) returns (r: Ret)
      requires Valid()
      modifies this
      ensures Out(State(), r) == Unlink(old(State()), name) && Valid()
    {
      hide SegOk, AttOk, Covered;
      Theorems.UnlinkInv(State(), name);
      if name !in names {
        return Err(ENOENT);
      }
      var s := names[name];
      names := names - {name};
      segs := segs[s := segs[s].(removed := true)];
      FreeIfUnused(s);
      return Ok(0);
    }

    method ReleaseFile(f: FileId)
      requires Valid() && f in files
      modifies this
      ensures State() == Release(old(State()), f) && Valid()
    {
      hide SegOk, AttOk, Covered;
      Theorems.ReleaseInv(State(), f);
      var s := files[f];
      segs := segs[s := segs[s].(fds := segs[s].fds - 1)];
      files := files - {f};
      FreeIfUnused(s);
    }

    method TruncateFile(f: FileId, size: nat, memOk: bool) returns (r: Ret)
      requires Valid() && f in files
      modifies this
      ensures Out(State(), r) == Truncate(old(State()), f, size, memOk) && Valid()
    {
      hide SegOk, AttOk, Covered;
      Theorems.TruncateInv(State(), f, size, memOk);
      var s := files[f];
      if segs[s].size.Some? {
        return if size <= segs[s].size.value then Ok(0) else Err(EINVAL);
      }
      if size == 0 {
        return Ok(0);
      }
      if !memOk {
        return Err(ENOMEM);
      }
      segs := segs[s := segs[s].(size := Some(AlignUp(size)), opens := segs[s].opens + 1)];
      return Ok(0);
    }

    /** dropAttachmentsLocked: the list is filtered in one pass, and counts go down as it goes. */
    method DropAttachments(p: Pid, addr: nat, len: nat)
      requires CountsOk(State()) && p in procs
      modifies this
      ensures forall i :: 0 <= i < |old(procs)[p].atts| ==> old(procs)[p].atts[i].s in old(segs)
      ensures State() == DropWithin(old(State()), p, addr, len, 0)
    {
      hide CountsOk, DropWithin, MaybeFree, Midway;
      AttsInSegs(State(), p);
      ghost var whole := DropWithin(State(), p, addr, len, 0);
      var atts := procs[p].atts;
      var kept: seq<Att> := [];
      MidwayStart(State(), p, addr, len);
      var i := 0;
      assert atts[0..] == atts;
      while i < |atts|
        invariant 0 <= i <= |atts| && p in procs && Midway(State(), p, kept, atts[i..], whole, addr, len)
      {
        var a := atts[i];
        MidwayStep(State(), p, kept, atts[i..], whole, addr, len);
        assert atts[i..][1..] == atts[i + 1..];
        if Within(a, addr, len) {
          CountDown(a.s);
        } else {
          kept := kept + [a];
        }
        i := i + 1;
      }
      MidwayEnd(State(), p, kept, atts[i..], whole, addr, len);
      procs := procs[p := procs[p].(atts := kept)];
    }

    /** mapLocked. */
    method MapSegment(p: Pid, s: SegId, addr: nat, len: nat, mmapOk: bool) returns (r: Ret)
      requires Valid() && p in procs && s in segs && s in table && segs[s].size.Some?
      requires !segs[s].removed || segs[s].fds > 0
      modifies this
      ensures Out(State(), r) == MapLocked(old(State()), p, s, addr, len, mmapOk) && Valid()
    {
      hide CountsOk, Covered, DropWithin, MapRange, Kept;
      Theorems.MapLockedInv(State(), p, s, addr, len, mmapOk);
      var pr := MapRange(procs[p], s, segs[s].size.value, addr, len, mmapOk);
      if pr.None? {
        return Err(EINVAL);
      }
      RemapCounts(State(), p, pr.value);
      procs := procs[p := pr.value];
      DropWithinOk(State(), p, addr, len, 0);
      DropAttachments(p, addr, len);
      segs := segs[s := segs[s].(attached := segs[s].attached + 1)];
      procs := procs[p := procs[p].(atts := procs[p].atts + [Att(addr, len, s)])];
      return Ok(0);
    }

    method AttachSegment(p: Pid, id: SegId, addr: nat, mmapOk: bool) returns (r: Ret)
      requires Valid() && p in procs
      modifies this
      ensures Out(State(), r) == Attach(old(State()), p, id, addr, mmapOk) && Valid()
    {
      hide SegOk, Covered;
      if id !in table || segs[id].removed || segs[id].size.None? {
        return Err(ENOENT);
      }
      r := MapSegment(p, id, addr, segs[id].size.value, mmapOk);
    }

    method MapFile(p: Pid, f: FileId, addr: nat, len: nat, mmapOk: bool) returns (r: Ret)
      requires Valid() && p in procs && f in files
      modifies this
      ensures Out(State(), r) == MapFd(old(State()), p, f, addr, len, mmapOk) && Valid()
    {
      hide SegOk, Covered;
      Theorems.FileIsHeld(State(), f);
      if segs[files[f]].size.None? {
        return Err(EINVAL);
      }
      r := MapSegment(p, files[f], addr, len, mmapOk);
    }

    method UnmapRangeOf(p: Pid, addr: nat, len: nat, mmapOk: bool) returns (r: Ret)
      requires Valid() && p in procs
      modifies this
      ensures Out(State(), r) == Unmap(old(State()), p, addr, len, mmapOk) && Valid()
    {
      hide CountsOk, Covered, DropWithin;
      Theorems.UnmapInv(State(), p, addr, len, mmapOk);
      var pr := UnmapRange(procs[p], addr, len, mmapOk);
      if pr.None? {
        return Err(EINVAL);
      }
      RemapCounts(State(), p, pr.value);
      procs := procs[p := pr.value];
      DropAttachments(p, addr, len);
      return Ok(0);
    }
  }

  function WithAtts(st: Shm, p: Pid, atts: seq<Att>): Shm
    requires p in st.procs
  {
    st.(procs := st.procs[p := st.procs[p].(atts := atts)])
  }

  /** In the middle of the pass, with kept filtered and rest to come, the whole pass still has the outcome whole. */
  ghost predicate Midway(st: Shm, p: Pid, kept: seq<Att>, rest: seq<Att>, whole: Shm, addr: nat, len: nat) {
    && p in st.procs && (forall a :: a in kept + rest ==> a.s in st.segs)
    && whole == DropWithin(WithAtts(st, p, kept + rest), p, addr, len, |kept|)
  }

  lemma MidwayStart(st: Shm, p: Pid, addr: nat, len: nat)
    requires p in st.procs && forall i :: 0 <= i < |st.procs[p].atts| ==> st.procs[p].atts[i].s in st.segs
    ensures Midway(st, p, [], st.procs[p].atts, DropWithin(st, p, addr, len, 0), addr, len)
  {
    hide DropWithin;
    assert [] + st.procs[p].atts == st.procs[p].atts;
    assert WithAtts(st, p, st.procs[p].atts) == st;
  }

  /** One attachment: it is kept, or its segment is counted down and freed if unused. */
  lemma MidwayStep(st: Shm, p: Pid, kept: seq<Att>, rest: seq<Att>, whole: Shm, addr: nat, len: nat)
    requires Midway(st, p, kept, rest, whole, addr, len) && rest != []
    ensures rest[0].s in st.segs
    ensures var s := rest[0].s;
            var st' := MaybeFree(st.(segs := st.segs[s := st.segs[s].(attached := st.segs[s].attached - 1)]), s);
            if Within(rest[0], addr, len) then Midway(st', p, kept, rest[1..], whole, addr, len)
            else Midway(st, p, kept + [rest[0]], rest[1..], whole, addr, len)
  {
    var all := kept + rest;
    var k := |kept|;
    assert all[k] == rest[0] && all[k] in all;
    if Within(rest[0], addr, len) {
      assert all[..k] + all[k + 1..] == kept + rest[1..];
      DetachIs(st, p, all, k);
    } else {
      assert kept + [rest[0]] + rest[1..] == all;
    }
  }

  lemma MidwayEnd(st: Shm, p: Pid, kept: seq<Att>, rest: seq<Att>, whole: Shm, addr: nat, len: nat)
    requires Midway(st, p, kept, rest, whole, addr, len) && rest == []
    ensures whole == WithAtts(st, p, kept)
  {
    assert kept + rest == kept;
  }

  /** Counting down and freeing does not look at the list of attachments. */
  lemma DetachIs(st: Shm, p: Pid, atts: seq<Att>, k: nat)
    requires p in st.procs && k < |atts| && atts[k].s in st.segs
    ensures var s := atts[k].s;
            var st' := MaybeFree(st.(segs := st.segs[s := st.segs[s].(attached := st.segs[s].attached - 1)]), s);
            && st'.segs.Keys == st.segs.Keys && p in st'.procs
            && Detach(WithAtts(st, p, atts), p, k) == WithAtts(st', p, atts[..k] + atts[k + 1..])
  {
  }
}
