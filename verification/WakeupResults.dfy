/** What each step does to the resource it touches and to the waiters. */
module WakeupResults {
  import opened Common
  import opened Wakeup
  import Pipes

  /** The step is a try by some waiter, not refused, of want on r. */
  ghost predicate Tries(s: State, step: Step, r: Rid, want: Want) {
    step.Hit? && Checking(s, step.w) && Next(s.waiters[step.w]) == Target(r, want)
  }

  /** A semaphore's count goes up by one with an unlock, down by one with a lock, to zero with a reset. */
  lemma SemaResult(s: State, step: Step, r: Rid)
    requires Enabled(s, step) && r in s.cells && s.cells[r].res.Sema?
    ensures r in Apply(s, step).cells && Apply(s, step).cells[r].res.Sema?
    ensures var was, now := s.cells[r].res, Apply(s, step).cells[r].res;
            && (Tries(s, step, r, Lock) ==> was.count > 0)
            && now.count == (if step == Unlock(r) then was.count + 1
                             else if step == Reset(r) then 0
                             else if Tries(s, step, r, Lock) then was.count - 1
                             else was.count)
            && now.unlocks == was.unlocks + (if step == Unlock(r) then 1 else 0)
            && now.locks == was.locks + if Tries(s, step, r, Lock) then 1 else 0
  {
  }

  /** A pipe is read, written, or loses an end; nothing else touches it. */
  lemma PipeResult(s: State, step: Step, r: Rid)
    requires Enabled(s, step) && r in s.cells && s.cells[r].res.Pipe?
    ensures r in Apply(s, step).cells && Apply(s, step).cells[r].res.Pipe?
    ensures var was, now := s.cells[r].res.p, Apply(s, step).cells[r].res.p;
            if step.Hit? && Next(s.waiters[step.w]).r == r then
              match Next(s.waiters[step.w]).want
              case Read(n) => Pipes.Takes(was, n, Pipes.ReadResult(was, n), now)
              case Write(b) => Pipes.Puts(was, b, Pipes.WriteResult(was, b), now)
              case _ => now == was
            else
              && now.readers == was.readers - (if step == CloseReader(r) then 1 else 0)
              && now.writers == was.writers - (if step == CloseWriter(r) then 1 else 0)
              && now == was.(readers := now.readers, writers := now.writers)
  {
    hide Ready, Pipes.Takes, Pipes.Puts, Pipes.ReadResult, Pipes.WriteResult, Pipes.AfterRead, Pipes.AfterWrite;
    if step.Hit? && Next(s.waiters[step.w]).r == r {
      match Next(s.waiters[step.w]).want
      case Read(n) => Pipes.ReadTakes(s.cells[r].res.p, n);
      case Write(b) => Pipes.WritePuts(s.cells[r].res.p, b);
      case _ =>
    }
  }

  /** The step reaps pid: a waiter for any child, or for this one, finds it done. */
  ghost predicate Reaps(s: State, step: Step, r: Rid, pid: nat) {
    Tries(s, step, r, Child(pid)) || (Tries(s, step, r, AnyChild) && step.who == pid)
  }

  /**
   A child is there from its fork until it is reaped, and done from the step that ends it on. Only a done
   child is reaped.
   */
  lemma KidsResult(s: State, step: Step, r: Rid, pid: nat)
    requires Enabled(s, step) && r in s.cells && s.cells[r].res.Kids?
    ensures r in Apply(s, step).cells && Apply(s, step).cells[r].res.Kids?
    ensures var was, now := s.cells[r].res.kids, Apply(s, step).cells[r].res.kids;
            && (pid in was && Reaps(s, step, r, pid) ==> was[pid])
            && (pid in now <==> step == Fork(r, pid) || (pid in was && !Reaps(s, step, r, pid)))
            && (pid in now ==> (now[pid] <==> pid in was && (was[pid] || step == ChildDone(r, pid))))
  {
  }

  /** pid was forked at j and nobody has reaped it between j and i. */
  ghost predicate ForkedAt(run: seq<State>, steps: seq<Step>, r: Rid, pid: nat, j: int, i: nat)
    requires i <= |steps| <= |run|
  {
    0 <= j < i && steps[j] == Fork(r, pid) && forall t :: j < t < i ==> !Reaps(run[t], steps[t], r, pid)
  }

  /**
   In every run, the children a process can wait for are those forked and not reaped since, and a child is
   done exactly if it has ended since its fork.
   */
  lemma {:induction false} ChildrenExactly(run: seq<State>, steps: seq<Step>, i: nat, r: Rid, pid: nat)
    requires IsRun(run, steps) && i < |run| && r in run[0].cells && run[0].cells[r].res.Kids?
    requires pid !in run[0].cells[r].res.kids
    ensures r in run[i].cells && run[i].cells[r].res.Kids?
    ensures var kids := run[i].cells[r].res.kids;
            && (pid in kids <==> exists j :: ForkedAt(run, steps, r, pid, j, i))
            && forall j :: ForkedAt(run, steps, r, pid, j, i) ==>
                 pid in kids && (kids[pid] <==> ChildDone(r, pid) in steps[j..i])
    decreases i
  {
    hide Apply, Enabled, Reaps;
    if i > 0 {
      var last := i - 1;
      ChildrenExactly(run, steps, last, r, pid);
      assert StepsTo(run[last], steps[last], run[i]);
      KidsResult(run[last], steps[last], r, pid);
      if steps[last] == Fork(r, pid) {
        ForkedOnce(run[last], steps[last], r, pid);
        assert ForkedAt(run, steps, r, pid, last, i);
      }
      assert forall j :: j < last ==>
          (ForkedAt(run, steps, r, pid, j, i) <==>
             ForkedAt(run, steps, r, pid, j, last) && !Reaps(run[last], steps[last], r, pid));
      forall j | ForkedAt(run, steps, r, pid, j, i)
        ensures steps[j..i] == steps[j..last] + [steps[last]]
      {
      }
    }
  }

  lemma ForkedOnce(s: State, step: Step, r: Rid, pid: nat)
    requires Enabled(s, step) && step == Fork(r, pid)
    ensures pid !in s.cells[r].res.kids
  {
  }

  /** A waiter that succeeds leaves; one that is woken starts over; others go on as they were. */
  lemma WaitersResult(s: State, step: Step, w: Wid)
    requires Enabled(s, step)
    ensures var s' := Apply(s, step);
            && (w in s'.waiters <==>
                  (w in s.waiters && !(step.Hit? && step.w == w) && step != Leave(w)) || (step.Begin? && step.w == w))
            && (step.Begin? && step.w == w ==> s'.waiters[w] == Waiter(step.wants, [], 0, false))
            && (step == Wake(w) ==> s'.waiters[w] == Waiter(s.waiters[w].wants, [], 0, false))
            && (w in s.waiters && w in s'.waiters ==> s'.waiters[w].wants == s.waiters[w].wants)
            && (w in s.waiters && w in s'.waiters && s'.waiters[w] != s.waiters[w] ==>
                  step == Take(w) || step == Miss(w) || step == Park(w) || step == Wake(w))
  {
  }
}
