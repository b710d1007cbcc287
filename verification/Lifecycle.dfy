/**
 The life of processes: spawning, exiting, reaping, and when a pid is given back. The steps are
 the sections under the kernel's and the processes' locks; a process's own calls follow each
 other, and everything else may interleave.
 */
module Lifecycle {
  import opened Common

  type Pid = nat
  type ProcId = nat

  /** Exited: done is closed, the section of finish under the kernel's lock is still to come. */
  datatype Phase = Starting | Running | Exited | Finished

  /**
   What a process's thread is in the middle of: spawn before the child is entered, waitpid before the pid is
   given back.
   */
  datatype Doing = Idle | Spawning(child: ProcId) | Reaping(child: ProcId)

  datatype Proc = Proc(pid: Pid, parent: Option<ProcId>, phase: Phase, status: int, doing: Doing,
                       children: set<ProcId>, parentGone: bool, reaped: nat)
  {
    predicate Done() { phase == Exited || phase == Finished }
  }

  /** procs is the kernel's table of pids; log is what waitpid has returned to anyone. */
  datatype State = State(ps: map<ProcId, Proc>, procs: map<Pid, ProcId>, log: seq<(ProcId, int)>)

  datatype Step =
    | Start(c: ProcId, pid: Pid)
    | Spawn(p: ProcId, c: ProcId, pid: Pid)
    | Adopt(p: ProcId)
    | Exit(c: ProcId, status: int)
    | Section(c: ProcId)
    | Reap(p: ProcId, c: ProcId)
    | Forget(p: ProcId)

  /** The table leads from c's pid to c. */
  predicate Registered(s: State, c: ProcId) {
    c in s.ps && s.ps[c].pid in s.procs && s.procs[s.ps[c].pid] == c
  }

  predicate Orphan(p: Proc) {
    p.parent == None || p.parentGone
  }

  predicate Idles(s: State, p: ProcId) {
    p in s.ps && s.ps[p].phase == Running && s.ps[p].doing == Idle
  }

  predicate Enabled(s: State, step: Step) {
    match step
    case Start(c, pid) => c !in s.ps && pid !in s.procs
    case Spawn(p, c, pid) => Idles(s, p) && c !in s.ps && pid !in s.procs
    case Adopt(p) => p in s.ps && s.ps[p].doing.Spawning? && s.ps[p].doing.child in s.ps
    case Exit(c, _) => Idles(s, c)
    case Section(c) => c in s.ps && s.ps[c].phase == Exited && s.ps[c].children <= s.ps.Keys
    case Reap(p, c) => Idles(s, p) && c in s.ps[p].children && c in s.ps && s.ps[c].Done()
    case Forget(p) => p in s.ps && s.ps[p].doing.Reaping? && s.ps[p].doing.child in s.ps
  }

  /**
   The pids the section of c gives back: those of its children that are done, and its own if nobody can wait
   for it.
   */
  function GivenBack(s: State, c: ProcId): set<Pid>
    requires Enabled(s, Section(c))
  {
    (set d | d in s.ps[c].children && s.ps[d].Done() :: s.ps[d].pid) + if Orphan(s.ps[c]) then {s.ps[c].pid} else {}
  }

  function AfterSection(s: State, c: ProcId): State
    requires Enabled(s, Section(c))
  {
    var kids := s.ps[c].children;
    s.(ps := map x | x in s.ps ::
              if x == c then s.ps[c].(phase := Finished, children := {})
              else if x in kids then s.ps[x].(parentGone := true)
              else s.ps[x],
       procs := s.procs - GivenBack(s, c))
  }

  function Apply(s: State, step: Step): State
    requires Enabled(s, step)
  {
    match step
    case Start(c, pid) =>
      s.(ps := s.ps[c := Proc(pid, None, Running, 0, Idle, {}, false, 0)], procs := s.procs[pid := c])
    case Spawn(p, c, pid) =>
      s.(ps := s.ps[c := Proc(pid, Some(p), Starting, 0, Idle, {}, false, 0)][p := s.ps[p].(doing := Spawning(c))],
         procs := s.procs[pid := c])
    case Adopt(p) =>
      var c := s.ps[p].doing.child;
      s.(ps := s.ps[c := s.ps[c].(phase := Running)][p := s.ps[p].(doing := Idle, children := s.ps[p].children + {c})])
    case Exit(c, status) => s.(ps := s.ps[c := s.ps[c].(phase := Exited, status := status)])
    case Section(c) => AfterSection(s, c)
    case Reap(p, c) =>
      s.(ps := s.ps[c := s.ps[c].(reaped := s.ps[c].reaped + 1)]
               [p := s.ps[p].(doing := Reaping(c), children := s.ps[p].children - {c})],
         log := s.log + [(c, s.ps[c].status)])
    case Forget(p) =>
      s.(ps := s.ps[p := s.ps[p].(doing := Idle)], procs := s.procs - {s.ps[s.ps[p].doing.child].pid})
  }

  // ---- the invariant ----

  /** What holds of the children a process can wait for. */
  predicate ChildOk(s: State, c: ProcId, d: ProcId)
    requires c in s.ps
  {
    && d in s.ps && s.ps[d].parent == Some(c) && s.ps[d].reaped == 0
    && s.ps[d].phase != Starting && s.ps[d].pid != s.ps[c].pid
  }

  /** What a process's own fields promise. */
  ghost predicate SelfOk(s: State, c: ProcId)
    requires c in s.ps
  {
    var q := s.ps[c];
    && q.reaped <= 1
    && (q.phase == Starting || q.phase == Running ==> Registered(s, c))
    && (q.phase == Starting ==> q.children == {} && q.doing == Idle && q.parent.Some?)
    && (q.phase == Finished ==> q.children == {})
    && (q.doing != Idle ==> q.phase == Running)
    && (forall d :: d in q.children ==> ChildOk(s, c, d))
    && (q.doing.Spawning? ==>
          && q.doing.child in s.ps && s.ps[q.doing.child].parent == Some(c)
          && s.ps[q.doing.child].phase == Starting)
    && (q.doing.Reaping? ==>
          && q.doing.child in s.ps && s.ps[q.doing.child].parent == Some(c)
          && s.ps[q.doing.child].reaped == 1)
  }

  /** What holds of a process and its parent together. */
  ghost predicate ParentOk(s: State, c: ProcId)
    requires c in s.ps
  {
    var q := s.ps[c];
    match q.parent
    case None =>
      && q.reaped == 0 && !q.parentGone
      && (q.phase == Exited ==> Registered(s, c)) && (q.phase == Finished ==> !Registered(s, c))
    case Some(p) =>
      && p in s.ps && p != c
      && if s.ps[p].phase != Finished then
           && !q.parentGone
           && (q.reaped == 0 ==>
                 && Registered(s, c)
                 && if q.phase == Starting then s.ps[p].doing == Spawning(c) else c in s.ps[p].children)
           && (q.reaped == 1 ==>
                 && q.Done() && c !in s.ps[p].children
                 && (Registered(s, c) <==> s.ps[p].doing == Reaping(c)))
         else
           && (q.reaped == 0 ==> q.parentGone && q.phase != Starting && (q.phase == Finished ==> !Registered(s, c)))
           && (q.reaped == 1 ==> q.Done() && !Registered(s, c) && !q.parentGone)
  }

  ghost predicate LogOk(s: State) {
    && (forall i :: 0 <= i < |s.log| ==>
          && s.log[i].0 in s.ps && s.ps[s.log[i].0].Done()
          && s.ps[s.log[i].0].reaped == 1 && s.ps[s.log[i].0].status == s.log[i].1)
    && (forall i, j :: 0 <= i < j < |s.log| ==> s.log[i].0 != s.log[j].0)
  }

  ghost predicate TableOk(s: State) {
    forall pid :: pid in s.procs ==> s.procs[pid] in s.ps && s.ps[s.procs[pid]].pid == pid
  }

  ghost predicate Inv(s: State) {
    && TableOk(s) && LogOk(s)
    && forall c :: c in s.ps ==> SelfOk(s, c) && ParentOk(s, c)
  }

  /** The pid an orphan gives back is its own still, or nobody's: it has not been handed out again. */
  predicate Undisturbed(s: State, step: Step) {
    step.Section? && step.c in s.ps && Orphan(s.ps[step.c]) && s.ps[step.c].pid in s.procs ==>
      s.procs[s.ps[step.c].pid] == step.c
  }

  // ---- every step keeps the invariant ----

  lemma StartKeeps(s: State, c: ProcId, pid: Pid, x: ProcId)
    requires Enabled(s, Start(c, pid)) && x in Apply(s, Start(c, pid)).ps
    requires x in s.ps ==> SelfOk(s, x) && ParentOk(s, x)
    ensures SelfOk(Apply(s, Start(c, pid)), x) && ParentOk(Apply(s, Start(c, pid)), x)
  {
  }

  lemma SpawnKeeps(s: State, p: ProcId, c: ProcId, pid: Pid, x: ProcId)
    requires Enabled(s, Spawn(p, c, pid)) && x in Apply(s, Spawn(p, c, pid)).ps
    requires SelfOk(s, p) && (x in s.ps ==> SelfOk(s, x) && ParentOk(s, x))
    ensures SelfOk(Apply(s, Spawn(p, c, pid)), x) && ParentOk(Apply(s, Spawn(p, c, pid)), x)
  {
  }

  lemma AdoptKeeps(s: State, p: ProcId, x: ProcId)
    requires Enabled(s, Adopt(p)) && x in s.ps && SelfOk(s, p) && ParentOk(s, s.ps[p].doing.child)
    requires SelfOk(s, s.ps[p].doing.child) && SelfOk(s, x) && ParentOk(s, x)
    ensures SelfOk(Apply(s, Adopt(p)), x) && ParentOk(Apply(s, Adopt(p)), x)
  {
  }

  lemma ExitKeeps(s: State, c: ProcId, status: int, x: ProcId)
    requires Enabled(s, Exit(c, status)) && x in s.ps && SelfOk(s, c) && ParentOk(s, c) && SelfOk(s, x)
    requires ParentOk(s, x)
    ensures SelfOk(Apply(s, Exit(c, status)), x) && ParentOk(Apply(s, Exit(c, status)), x)
  {
  }

  lemma ReapKeeps(s: State, p: ProcId, c: ProcId, x: ProcId)
    requires Enabled(s, Reap(p, c)) && x in s.ps && SelfOk(s, p) && ParentOk(s, c) && SelfOk(s, x) && ParentOk(s, x)
    ensures SelfOk(Apply(s, Reap(p, c)), x) && ParentOk(Apply(s, Reap(p, c)), x)
  {
  }

  lemma ForgetKeeps(s: State, p: ProcId, x: ProcId)
    requires Enabled(s, Forget(p)) && x in s.ps && SelfOk(s, p) && ParentOk(s, s.ps[p].doing.child)
    requires SelfOk(s, x) && ParentOk(s, x)
    ensures SelfOk(Apply(s, Forget(p)), x) && ParentOk(Apply(s, Forget(p)), x)
  {
    var c := s.ps[p].doing.child;
    assert Registered(Apply(s, Forget(p)), x) <==> Registered(s, x) && x != c;
  }

  /** The section of c takes out of the table itself, if nobody can wait for it, and its children that are done. */
  lemma SectionTable(s: State, c: ProcId, x: ProcId)
    requires Inv(s) && Enabled(s, Section(c)) && Undisturbed(s, Section(c)) && x in s.ps
    ensures Registered(AfterSection(s, c), x) <==>
            Registered(s, x) && !(x == c && Orphan(s.ps[c])) && !(x in s.ps[c].children && s.ps[x].Done())
  {
    assert SelfOk(s, c);
    var gone := GivenBack(s, c);
    if Registered(s, x) && s.ps[x].pid in gone {
      if d :| d in s.ps[c].children && s.ps[d].Done() && s.ps[d].pid == s.ps[x].pid {
        assert ParentOk(s, d) && SelfOk(s, d);
      }
    }
    if x in s.ps[c].children && s.ps[x].Done() {
      assert s.ps[x].pid in gone;
    }
  }

  lemma SectionKeepsSelf(s: State, c: ProcId, x: ProcId)
    requires Enabled(s, Section(c)) && x in s.ps && SelfOk(s, c) && SelfOk(s, x)
    requires s.ps[x].phase == Starting || s.ps[x].phase == Running ==> Registered(AfterSection(s, c), x)
    ensures SelfOk(AfterSection(s, c), x)
  {
    hide GivenBack;
  }

  lemma SectionKeepsParent(s: State, c: ProcId, x: ProcId)
    requires Enabled(s, Section(c)) && x in s.ps && SelfOk(s, c) && ParentOk(s, c) && ParentOk(s, x)
    requires Registered(AfterSection(s, c), x) <==>
             Registered(s, x) && !(x == c && Orphan(s.ps[c])) && !(x in s.ps[c].children && s.ps[x].Done())
    ensures ParentOk(AfterSection(s, c), x)
  {
    hide GivenBack;
  }

  lemma SectionKeeps(s: State, c: ProcId, x: ProcId)
    requires Inv(s) && Enabled(s, Section(c)) && Undisturbed(s, Section(c)) && x in s.ps
    ensures SelfOk(AfterSection(s, c), x) && ParentOk(AfterSection(s, c), x)
  {
    assert SelfOk(s, c) && ParentOk(s, c) && SelfOk(s, x) && ParentOk(s, x);
    SectionTable(s, c, x);
    hide GivenBack, Inv;
    SectionKeepsSelf(s, c, x);
    SectionKeepsParent(s, c, x);
  }

  lemma ReapLog(s: State, p: ProcId, c: ProcId)
    requires LogOk(s) && Enabled(s, Reap(p, c)) && SelfOk(s, p)
    ensures LogOk(Apply(s, Reap(p, c)))
  {
  }

  lemma SectionTables(s: State, c: ProcId)
    requires TableOk(s) && LogOk(s) && Enabled(s, Section(c))
    ensures TableOk(AfterSection(s, c)) && LogOk(AfterSection(s, c))
  {
    hide GivenBack;
  }

  lemma StepTable(s: State, step: Step)
    requires TableOk(s) && Enabled(s, step) && !step.Section?
    ensures TableOk(Apply(s, step))
  {
  }

  lemma StepLog(s: State, step: Step)
    requires LogOk(s) && Enabled(s, step) && !step.Section? && !step.Reap?
    requires step.Adopt? ==> !s.ps[s.ps[step.p].doing.child].Done()
    ensures LogOk(Apply(s, step))
  {
  }

  /** The table and the log after a step. */
  lemma StepTables(s: State, step: Step)
    requires Inv(s) && Enabled(s, step)
    ensures TableOk(Apply(s, step)) && LogOk(Apply(s, step))
  {
    assert TableOk(s) && LogOk(s) && (step.Adopt? || step.Reap? ==> SelfOk(s, step.p));
    hide Inv, TableOk, LogOk;
    if step.Section? {
      SectionTables(s, step.c);
    } else {
      StepTable(s, step);
      if step.Reap? {
        ReapLog(s, step.p, step.c);
      } else {
        StepLog(s, step);
      }
    }
  }

  lemma StepKeeps(s: State, step: Step, x: ProcId)
    requires Inv(s) && Enabled(s, step) && Undisturbed(s, step) && x in Apply(s, step).ps
    ensures SelfOk(Apply(s, step), x) && ParentOk(Apply(s, step), x)
  {
    hide ParentOk;
    match step
    case Start(c, pid) => StartKeeps(s, c, pid, x);
    case Spawn(p, c, pid) => SpawnKeeps(s, p, c, pid, x);
    case Adopt(p) => AdoptKeeps(s, p, x);
    case Exit(c, status) => ExitKeeps(s, c, status, x);
    case Section(c) => SectionKeeps(s, c, x);
    case Reap(p, c) => ReapKeeps(s, p, c, x);
    case Forget(p) => ForgetKeeps(s, p, x);
  }

  lemma StepInv(s: State, step: Step)
    requires Inv(s) && Enabled(s, step) && Undisturbed(s, step)
    ensures Inv(Apply(s, step))
  {
    hide SelfOk, ParentOk, TableOk, LogOk;
    StepTables(s, step);
    forall x | x in Apply(s, step).ps ensures SelfOk(Apply(s, step), x) && ParentOk(Apply(s, step), x) {
      StepKeeps(s, step, x);
    }
  }

  // ---- runs ----

  const EMPTY := State(map[], map[], [])

  predicate IsRun(run: seq<State>, steps: seq<Step>) {
    && |run| == |steps| + 1 && run[0] == EMPTY
    && forall i :: 0 <= i < |steps| ==> StepsTo(run[i], steps[i], run[i + 1])
  }

  predicate StepsTo(s: State, step: Step, s': State) {
    Enabled(s, step) && s' == Apply(s, step)
  }

  lemma {:induction false} RunInv(run: seq<State>, steps: seq<Step>, i: nat)
    requires IsRun(run, steps) && i < |run|
    requires forall j :: 0 <= j < i ==> Undisturbed(run[j], steps[j])
    ensures Inv(run[i])
    decreases i
  {
    if i > 0 {
      RunInv(run, steps, i - 1);
      assert StepsTo(run[i - 1], steps[i - 1], run[i]);
      StepInv(run[i - 1], steps[i - 1]);
    }
  }

  /**
   What a process can count on: waitpid returns it at most once and with its final status; while its
   parent lives and has not reaped it, it is registered, and once it is done it can be reaped; and once both
   have finished it is not registered.
   */
  ghost predicate LifeOk(s: State, c: ProcId)
    requires c in s.ps
  {
    && (forall a, b :: 0 <= a < b < |s.log| ==> s.log[a].0 != s.log[b].0)
    && (forall a :: 0 <= a < |s.log| && s.log[a].0 == c ==> s.ps[c].Done() && s.log[a].1 == s.ps[c].status)
    && (!s.ps[c].Done() ==> Registered(s, c))
    && (s.ps[c].parent.Some? ==>
          && s.ps[c].parent.value in s.ps
          && var p := s.ps[s.ps[c].parent.value];
          && (p.phase != Finished && s.ps[c].reaped == 0 ==> Registered(s, c))
          && (Idles(s, s.ps[c].parent.value) && s.ps[c].reaped == 0 && s.ps[c].Done() ==>
                Enabled(s, Reap(s.ps[c].parent.value, c)))
          && (p.phase == Finished && s.ps[c].phase == Finished ==> !Registered(s, c)))
    && (s.ps[c].parent.None? && s.ps[c].phase == Finished ==> !Registered(s, c))
  }

  lemma InvLife(s: State, c: ProcId)
    requires Inv(s) && c in s.ps
    ensures LifeOk(s, c)
  {
    assert SelfOk(s, c) && ParentOk(s, c);
  }

  /** All this holds in every run in which no pid is handed out again before its orphan has given it back. */
  lemma Lifecycles(run: seq<State>, steps: seq<Step>, i: nat, c: ProcId)
    requires IsRun(run, steps) && i < |run| && c in run[i].ps
    requires forall j :: 0 <= j < i ==> Undisturbed(run[j], steps[j])
    ensures LifeOk(run[i], c)
  {
    RunInv(run, steps, i);
    InvLife(run[i], c);
  }

  // ---- what waitpid has returned, told by the steps ----

  /** A process is done from its exit on, with the status it exited with. */
  lemma DoneByExit(s: State, step: Step, c: ProcId)
    requires Inv(s) && Enabled(s, step) && c in Apply(s, step).ps
    ensures var s' := Apply(s, step);
            && (step == Exit(c, s'.ps[c].status) <==> (c in s.ps ==> !s.ps[c].Done()) && s'.ps[c].Done())
            && (c in s.ps && s.ps[c].Done() ==> s'.ps[c].Done() && s'.ps[c].status == s.ps[c].status)
            && (step.Exit? && step.c == c ==> step.status == s'.ps[c].status && s'.ps[c].Done())
  {
    hide ParentOk, GivenBack, LogOk, TableOk;
    if step.Adopt? {
      assert SelfOk(s, step.p);
    }
    hide SelfOk, Inv;
  }

  /** Step j is the exit of c with status st. */
  predicate ExitsAt(steps: seq<Step>, j: int, c: ProcId, st: int) {
    0 <= j < |steps| && steps[j] == Exit(c, st)
  }

  predicate ReapsAt(steps: seq<Step>, j: int, c: ProcId) {
    0 <= j < |steps| && steps[j].Reap? && steps[j].c == c
  }

  /** c exits at step j with status st, before i, and at no other step before i. */
  ghost predicate ExitedOnce(steps: seq<Step>, i: nat, c: ProcId, j: int, st: int) {
    j < i && ExitsAt(steps, j, c, st) && forall k, st' :: k < i && ExitsAt(steps, k, c, st') ==> k == j
  }

  /** Whoever is done has exited at exactly one step, with its status, and nobody else has. */
  lemma {:induction false} ExitedByStep(run: seq<State>, steps: seq<Step>, i: nat, c: ProcId) returns (j: int)
    requires IsRun(run, steps) && i < |run| && forall k :: 0 <= k < i ==> Undisturbed(run[k], steps[k])
    ensures c in run[i].ps && run[i].ps[c].Done() ==> ExitedOnce(steps, i, c, j, run[i].ps[c].status)
    ensures !(c in run[i].ps && run[i].ps[c].Done()) ==> forall k, st :: k < i ==> !ExitsAt(steps, k, c, st)
    decreases i
  {
    j := 0;
    if i > 0 {
      j := ExitedByStep(run, steps, i - 1, c);
      RunInv(run, steps, i - 1);
      hide Inv;
      assert StepsTo(run[i - 1], steps[i - 1], run[i]);
      if c in run[i].ps {
        DoneByExit(run[i - 1], steps[i - 1], c);
        if steps[i - 1].Exit? && steps[i - 1].c == c {
          j := i - 1;
        }
      } else {
        ProcsOnlyGrow(run[i - 1], steps[i - 1]);
      }
    }
  }

  lemma ProcsOnlyGrow(s: State, step: Step)
    requires Enabled(s, step)
    ensures s.ps.Keys <= Apply(s, step).ps.Keys
    ensures step.Exit? ==> step.c in s.ps
    ensures Apply(s, step).log == if step.Reap? then s.log + [(step.c, s.ps[step.c].status)] else s.log
  {
    hide GivenBack;
  }

  /**
   Over the same runs: waitpid has returned c with status st exactly if it was reaped at a step before i, and
   exited, at exactly one step, with that status.
   */
  lemma {:induction false} ReapedStatus(run: seq<State>, steps: seq<Step>, i: nat, c: ProcId, st: int)
    requires IsRun(run, steps) && i < |run| && forall k :: 0 <= k < i ==> Undisturbed(run[k], steps[k])
    ensures (c, st) in run[i].log <==>
            && (exists j :: j < i && ReapsAt(steps, j, c))
            && (exists j :: ExitedOnce(steps, i, c, j, st))
  {
    LogByReap(run, steps, i, c);
    var j := ExitedByStep(run, steps, i, c);
    RunInv(run, steps, i);
    if exists k :: ExitedOnce(steps, i, c, k, st) {
      var k :| ExitedOnce(steps, i, c, k, st);
      assert ExitsAt(steps, k, c, st);
    }
  }

  /** Who is in the log has been reaped, and the other way round, with its own status. */
  lemma {:induction false} LogByReap(run: seq<State>, steps: seq<Step>, i: nat, c: ProcId)
    requires IsRun(run, steps) && i < |run| && forall k :: 0 <= k < i ==> Undisturbed(run[k], steps[k])
    ensures (exists j :: j < i && ReapsAt(steps, j, c)) <==>
            c in run[i].ps && run[i].ps[c].Done() && (c, run[i].ps[c].status) in run[i].log
    ensures forall st :: (c, st) in run[i].log ==> c in run[i].ps && run[i].ps[c].status == st
    decreases i
  {
    if i > 0 {
      LogByReap(run, steps, i - 1, c);
      RunInv(run, steps, i - 1);
      assert StepsTo(run[i - 1], steps[i - 1], run[i]);
      ProcsOnlyGrow(run[i - 1], steps[i - 1]);
      if c in run[i].ps {
        DoneByExit(run[i - 1], steps[i - 1], c);
      }
      hide Inv;
      if steps[i - 1].Reap? && steps[i - 1].c == c {
        assert ReapsAt(steps, i - 1, c);
      }
    }
  }

  /** The children of a process have different pids, so that its table of children by pid is this set. */
  lemma ChildrenByPid(s: State, p: ProcId, c: ProcId, d: ProcId)
    requires Inv(s) && p in s.ps && c in s.ps[p].children && d in s.ps[p].children && c != d
    ensures s.ps[c].pid != s.ps[d].pid
  {
    assert SelfOk(s, p) && ParentOk(s, c) && ParentOk(s, d);
  }

  // ---- pids that are handed out again too soon ----

  /** The section of c takes q out of the table although q is neither c nor one of its finished children. */
  ghost predicate Robbed(s: State, c: ProcId, q: ProcId)
    requires Enabled(s, Section(c))
  {
    q != c && !(q in s.ps[c].children && s.ps[q].Done()) && Registered(s, q) && !Registered(AfterSection(s, c), q)
  }

  /** Exactly when its pid has a new owner, the section of an orphan takes that owner out of the table. */
  lemma RobbedExactly(s: State, c: ProcId)
    requires Inv(s) && Enabled(s, Section(c))
    ensures (exists q :: Robbed(s, c, q)) <==> !Undisturbed(s, Section(c))
  {
    if Undisturbed(s, Section(c)) {
      forall q | q in s.ps ensures !Robbed(s, c, q) {
        SectionTable(s, c, q);
      }
    } else {
      assert SelfOk(s, c);
      assert Robbed(s, c, s.procs[s.ps[c].pid]);
    }
  }
}
