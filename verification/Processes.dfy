/** The kernel's table of processes as it is updated in place: the section of finish and the scan of waitpid. */
module Processes {
  import opened Common
  import opened Lifecycle

  /** What a scan of a process's children tells waitpid. */
  datatype Scan = Reaped(child: ProcId, pid: Pid, status: int) | NotYet | NoChild

  class Table {
    var ps: map<ProcId, Proc>
    var procs: map<Pid, ProcId>
    ghost var log: seq<(ProcId, int)>

    ghost function Now(): State
      reads this
    {
      State(ps, procs, log)
    }

    /** The process with pid, whichever it is by now, leaves the table. */
    method Drop(pid: Pid)
      modifies this
      ensures Now() == old(Now()).(procs := old(procs) - {pid})
    {
      if pid in procs {
        procs := procs - {pid};
      } else {
        assert procs - {pid} == procs;
      }
    }

    /** Tells one child that its parent is gone. */
    method Disown(d: ProcId)
      requires d in ps
      modifies this
      ensures ps == old(ps)[d := old(ps)[d].(parentGone := true)] && log == old(log)
      ensures procs == if old(ps)[d].Done() then old(procs) - {old(ps)[d].pid} else old(procs)
    {
      ps := ps[d := ps[d].(parentGone := true)];
      if ps[d].Done() {
        Drop(ps[d].pid);
      }
    }

    /** The section of finish under the kernel's lock. */
    method Finish(c: ProcId)
      requires Enabled(Now(), Section(c)) && Inv(Now())
      modifies this
      ensures Now() == AfterSection(old(Now()), c)
    {
      hide Inv;
      ghost var was := Now();
      ChildrenExist(was, c);
      var todo := ps[c].children;
      while todo != {}
        invariant todo <= was.ps[c].children && log == was.log && c in ps
        invariant ps == Disowned(was, was.ps[c].children - todo)
        invariant procs == was.procs - PidsOf(was, was.ps[c].children - todo)
        decreases todo
      {
        var d := Pick(todo);
        DisownStep(was, was.ps[c].children - todo, d);
        assert was.ps[c].children - (todo - {d}) == was.ps[c].children - todo + {d};
        Disown(d);
        todo := todo - {d};
      }
      assert was.ps[c].children - todo == was.ps[c].children;
      ps := ps[c := ps[c].(phase := Finished, children := {})];
      if Orphan(ps[c]) {
        Drop(ps[c].pid);
      }
      assert ps == AfterSection(was, c).ps;
      assert procs == was.procs - GivenBack(was, c);
    }

    /** Takes a finished child out of p's children and gives back its pid. */
    method Take(p: ProcId, c: ProcId)
      requires Enabled(Now(), Reap(p, c)) && c != p
      modifies this
      ensures Enabled(Apply(old(Now()), Reap(p, c)), Forget(p))
      ensures Now() == Apply(Apply(old(Now()), Reap(p, c)), Forget(p))
    {
      ReapForgets(Now(), p, c);
      ps := ps[p := ps[p].(children := ps[p].children - {c})];
      Drop(ps[c].pid);
      log := log + [(c, ps[c].status)];
      ps := ps[c := ps[c].(reaped := ps[c].reaped + 1)];
      assert ps == old(ps)[c := ps[c]][p := ps[p]];
    }

    /** One round of waitpid: takes a finished child that is asked for, if there is one, and gives back its pid. */
    method Wait(p: ProcId, want: Option<Pid>) returns (r: Scan)
      requires Inv(Now()) && Idles(Now(), p)
      modifies this
      ensures r.Reaped? ==>
                && Asked(old(Now()), p, want, r.child) && old(ps)[r.child].Done()
                && r.pid == old(ps)[r.child].pid && r.status == old(ps)[r.child].status
                && Enabled(old(Now()), Reap(p, r.child))
                && Enabled(Apply(old(Now()), Reap(p, r.child)), Forget(p))
                && Now() == Apply(Apply(old(Now()), Reap(p, r.child)), Forget(p))
      ensures !r.Reaped? ==>
                && Now() == old(Now())
                && forall c :: Asked(Now(), p, want, c) ==> !ps[c].Done()
      ensures r.NoChild? <==> forall c :: !Asked(old(Now()), p, want, c)
    {
      hide Apply;
      ghost var was := Now();
      ChildrenExist(was, p);
      hide Inv;
      var todo := ps[p].children;
      var found := false;
      while todo != {}
        invariant Now() == was && todo <= was.ps[p].children
        invariant found <==> exists c :: c !in todo && Asked(was, p, want, c)
        invariant forall c :: c !in todo && Asked(was, p, want, c) ==> !was.ps[c].Done()
        decreases todo
      {
        var c := Pick(todo);
        todo := todo - {c};
        if want == None || want == Some(ps[c].pid) {
          found := true;
          assert Asked(was, p, want, c);
          if ps[c].Done() {
            r := Reaped(c, ps[c].pid, ps[c].status);
            Take(p, c);
            return;
          }
        }
      }
      r := if found then NotYet else NoChild;
    }
  }

  /** The processes once those in some are told that their parent is gone. */
  function Disowned(s: State, some: set<ProcId>): map<ProcId, Proc> {
    map x | x in s.ps :: if x in some then s.ps[x].(parentGone := true) else s.ps[x]
  }

  /** The pids of the finished processes in some. */
  function PidsOf(s: State, some: set<ProcId>): set<Pid> {
    set d | d in some && d in s.ps && s.ps[d].Done() :: s.ps[d].pid
  }

  lemma DisownStep(s: State, some: set<ProcId>, d: ProcId)
    requires d in s.ps && d !in some
    ensures Disowned(s, some + {d}) == Disowned(s, some)[d := s.ps[d].(parentGone := true)]
    ensures s.procs - PidsOf(s, some + {d}) ==
            if s.ps[d].Done() then s.procs - PidsOf(s, some) - {s.ps[d].pid} else s.procs - PidsOf(s, some)
  {
    assert PidsOf(s, some + {d}) == if s.ps[d].Done() then PidsOf(s, some) + {s.ps[d].pid} else PidsOf(s, some);
  }

  lemma ChildrenExist(s: State, p: ProcId)
    requires Inv(s) && p in s.ps
    ensures s.ps[p].children <= s.ps.Keys && p !in s.ps[p].children
  {
    assert SelfOk(s, p) && ParentOk(s, p);
    assert forall d :: d in s.ps[p].children ==> ChildOk(s, p, d);
  }

  /** c is a child of p that the caller of waitpid asks for. */
  predicate Asked(s: State, p: ProcId, want: Option<Pid>, c: ProcId) {
    p in s.ps && c in s.ps[p].children && c in s.ps && (want == None || want == Some(s.ps[c].pid))
  }

  /** The two sections of waitpid one after the other. */
  lemma ReapForgets(s: State, p: ProcId, c: ProcId)
    requires Enabled(s, Reap(p, c)) && c != p
    ensures var s1 := Apply(s, Reap(p, c));
            && Enabled(s1, Forget(p))
            && Apply(s1, Forget(p)) ==
               State(s.ps[c := s.ps[c].(reaped := s.ps[c].reaped + 1)]
                         [p := s.ps[p].(children := s.ps[p].children - {c})],
                     s.procs - {s.ps[c].pid}, s.log + [(c, s.ps[c].status)])
  {
  }
}
