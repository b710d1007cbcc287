/** The descriptor tables as objects: the methods of fdTable and openFile, each a sequence of the steps of Files. */
module FdTables {
  import opened Common
  import opened Pipes
  import opened Files

  /** What a child inherits of the descriptors fds of table t. */
  function Inherited(t: Table, fds: set<Fd>): Table {
    map fd | fd in t && fd in fds && !t[fd].cloexec :: Entry(t[fd].of, false)
  }

  lemma InheritedEnds(t: Table)
    ensures Inherited(t, {}) == map[]
  {
  }

  lemma InheritedStep(t: Table, fds: set<Fd>, fd: Fd)
    requires fd in t && fd !in fds
    ensures fd !in Inherited(t, fds)
    ensures Inherited(t, fds + {fd}) ==
            if t[fd].cloexec then Inherited(t, fds) else Inherited(t, fds)[fd := Entry(t[fd].of, false)]
  {
  }

  class Descriptors {
    var files: map<OfId, OpenFile>
    var tables: map<Pid, Table>
    var pipes: map<PipeId, Ends>
    ghost var unrefs: multiset<OfId>
    ghost var releases: multiset<OfId>

    ghost function View(): State
      reads this
    {
      State(files, tables, pipes, unrefs, releases)
    }

    ghost predicate Valid()
      reads this
    {
      Inv(View())
    }

    constructor ()
      ensures Valid() && View() == START
    {
      files, tables, pipes := map[], map[], map[];
      unrefs, releases := multiset{}, multiset{};
    }

    /** unref: the reference goes, and with the last one the file is released. */
    method GiveUp(of: OfId)
      requires Valid() && of in unrefs && of in files
      modifies this
      ensures Valid() && View() == Unreferenced(old(View()), of)
      ensures tables == old(tables) && unrefs == old(unrefs) - multiset{of} && releases == old(releases)
    {
      hide Inv, ReleasedPipes;
      ghost var s := View();
      UnreferencedInv(s, of);
      var f := files[of].(refs := files[of].refs - 1);
      unrefs := unrefs - multiset{of};
      if f.refs == 0 {
        f := f.(released := f.released + 1);
        pipes := ReleasedPipes(pipes, of, f.kind);
        assert s.releases + multiset{of} - multiset{of} == s.releases;
      }
      files := files[of := f];
      assert View() == Unreferenced(s, of);
    }

    /** The search of add for the lowest free number. */
    method FindFree(t: Table) returns (fd: Fd)
      ensures IsLowestFree(t, fd)
    {
      fd := FD_BASE;
      while fd in t
        invariant FD_BASE <= fd && forall k :: FD_BASE <= k < fd ==> k in t
        decreases set k | k in t && fd <= k
      {
        ghost var above, rest := set k | k in t && fd <= k, set k | k in t && fd + 1 <= k;
        assert fd in above && fd !in rest && rest <= above;
        fd := fd + 1;
      }
    }

    method PutEntry(p: Pid, fd: Fd, of: OfId, cloexec: bool)
      requires p in tables && of in files
      modifies this`tables, this`files
      ensures View() == Put(old(View()), p, fd, of, cloexec)
    {
      files := files[of := files[of].(refs := files[of].refs + 1)];
      tables := tables[p := tables[p][fd := Entry(of, cloexec)]];
    }

    /** add of a file p has open: the step Add. */
    method AddFd(p: Pid, of: OfId, cloexec: bool) returns (fd: Fd)
      requires Valid() && HasOpen(View(), p, of)
      modifies this
      ensures Valid() && of in old(files) && p in old(tables) && IsLowestFree(old(tables)[p], fd)
      ensures View() == Put(old(View()), p, fd, of, cloexec)
    {
      hide FileOk, PipesOk;
      fd := FindFree(tables[p]);
      PutHeldInv(View(), p, p, fd, of, cloexec);
      PutEntry(p, fd, of, cloexec);
    }

    /** install, for dup2: what was in the slot is given up after the new file is in it. */
    method InstallFd(p: Pid, fd: Fd, of: OfId, cloexec: bool)
      requires Valid() && HasOpen(View(), p, of)
      modifies this
      ensures Valid() && p in old(tables)
      ensures tables == old(tables)[p := old(tables)[p][fd := Entry(of, cloexec)]]
      ensures unrefs == old(unrefs) && releases == old(releases)
    {
      hide FileOk, PipesOk;
      if fd in tables[p] {
        var was := tables[p][fd].of;
        ReplaceInv(View(), p, fd, of, cloexec);
        ghost var s := Take(View(), p, fd);
        assert s.tables[p][fd := Entry(of, cloexec)] == tables[p][fd := Entry(of, cloexec)];
        unrefs := unrefs + multiset{was};
        PutEntry(p, fd, of, cloexec);
        assert View() == Put(s, p, fd, of, cloexec);
        GiveUp(was);
      } else {
        PutHeldInv(View(), p, p, fd, of, cloexec);
        PutEntry(p, fd, of, cloexec);
      }
    }

    method CloseFd(p: Pid, fd: Fd) returns (ok: bool)
      requires Valid() && p in tables
      modifies this
      ensures Valid() && ok == (fd in old(tables)[p])
      ensures tables == old(tables)[p := old(tables)[p] - {fd}]
      ensures unrefs == old(unrefs) && releases == old(releases)
    {
      hide FileOk, PipesOk;
      if fd !in tables[p] {
        assert tables[p] - {fd} == tables[p];
        return false;
      }
      var of := tables[p][fd].of;
      TakeInv(View(), p, fd);
      tables := tables[p := tables[p] - {fd}];
      unrefs := unrefs + multiset{of};
      GiveUp(of);
      return true;
    }

    method StartTable(p: Pid)
      requires Valid() && p !in tables
      modifies this`tables
      ensures Valid() && tables == old(tables)[p := map[]]
    {
      hide FileOk, PipesOk;
      StepInv(View(), NewProcess(p));
      tables := tables[p := map[]];
    }

    /** One descriptor of p inherited by the child. */
    method InheritFd(p: Pid, child: Pid, fd: Fd)
      requires Valid() && p in tables && child in tables && p != child && fd in tables[p] && fd !in tables[child]
      modifies this`tables, this`files
      ensures Valid() && tables == old(tables)[child := old(tables)[child][fd := Entry(old(tables)[p][fd].of, false)]]
    {
      hide FileOk, PipesOk;
      PutHeldInv(View(), p, child, fd, tables[p][fd].of, false);
      PutEntry(child, fd, tables[p][fd].of, false);
    }

    /** cloneForExec: the child's table has every descriptor not marked close-on-exec, and nothing else. */
    method CloneForExec(p: Pid, child: Pid)
      requires Valid() && p in tables && child !in tables
      modifies this
      ensures Valid() && tables == old(tables)[child := Inherited(old(tables)[p], old(tables)[p].Keys)]
      ensures unrefs == old(unrefs) && releases == old(releases)
    {
      hide Inv, Inherited;
      StartTable(child);
      var rest := tables[p].Keys;
      assert tables[child] == Inherited(tables[p], {}) by { InheritedEnds(tables[p]); }
      assert tables[p].Keys - rest == {};
      while rest != {}
        invariant Valid() && rest <= old(tables)[p].Keys
        invariant tables == old(tables)[child := Inherited(old(tables)[p], old(tables)[p].Keys - rest)]
        invariant unrefs == old(unrefs) && releases == old(releases)
      {
        var fd := Pick(rest);
        assert old(tables)[p].Keys - (rest - {fd}) == old(tables)[p].Keys - rest + {fd};
        InheritedStep(tables[p], old(tables)[p].Keys - rest, fd);
        if !tables[p][fd].cloexec {
          InheritFd(p, child, fd);
        }
        rest := rest - {fd};
      }
      assert old(tables)[p].Keys - rest == old(tables)[p].Keys;
    }

    /** closeAll: every descriptor of p is closed and its reference given up. */
    method CloseAll(p: Pid)
      requires Valid() && p in tables
      modifies this
      ensures Valid() && tables == old(tables)[p := map[]]
      ensures unrefs == old(unrefs) && releases == old(releases)
    {
      hide Inv;
      var rest := tables[p].Keys;
      while rest != {}
        invariant Valid() && p in tables && rest == tables[p].Keys
        invariant tables == old(tables)[p := tables[p]]
        invariant unrefs == old(unrefs) && releases == old(releases)
      {
        var fd := Pick(rest);
        var _ := CloseFd(p, fd);
        rest := rest - {fd};
      }
      assert tables[p] == map[];
    }
  }
}
