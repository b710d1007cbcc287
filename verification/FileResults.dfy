/** What each step on descriptors does, slot by slot and pipe by pipe. */
module FileResults {
  import opened Common
  import opened Pipes
  import opened Files

  /** Slot fd of p, if it is used. */
  function Slot(s: State, p: Pid, fd: Fd): Option<Entry> {
    if p in s.tables && fd in s.tables[p] then Some(s.tables[p][fd]) else None
  }

  /** The number p's next descriptor gets. */
  predicate IsNext(s: State, p: Pid, fd: Fd) {
    0x100000 <= fd && Slot(s, p, fd) == None && forall k :: 0x100000 <= k < fd ==> Slot(s, p, k).Some?
  }

  lemma SlotPut(s: State, q: Pid, k: Fd, of: OfId, cloexec: bool, p: Pid, fd: Fd)
    requires q in s.tables && of in s.files
    ensures Slot(Put(s, q, k, of, cloexec), p, fd) ==
            if p == q && fd == k then Some(Entry(of, cloexec)) else Slot(s, p, fd)
    ensures q in Put(s, q, k, of, cloexec).tables && Put(s, q, k, of, cloexec).files.Keys == s.files.Keys
  {
  }

  lemma SlotTake(s: State, q: Pid, k: Fd, p: Pid, fd: Fd)
    requires q in s.tables && k in s.tables[q]
    ensures Slot(Take(s, q, k), p, fd) == if p == q && fd == k then None else Slot(s, p, fd)
    ensures q in Take(s, q, k).tables && Take(s, q, k).files == s.files
  {
  }

  /** What a step leaves in slot fd of p, where was is what was in it. */
  ghost predicate Leaves(s: State, step: Step, p: Pid, fd: Fd, was: Option<Entry>, now: Option<Entry>) {
    match step
    case NewFile(q, k, of, cloexec) => now == if p == q && fd == k then Some(Entry(of, cloexec)) else was
    case NewPipe(q, _, r, w, rfd, wfd) =>
      now == (if p == q && fd == rfd then Some(Entry(r, false))
              else if p == q && fd == wfd then Some(Entry(w, false))
              else was)
    case Add(q, of, cloexec) => now == if p == q && IsNext(s, q, fd) then Some(Entry(of, cloexec)) else was
    case Install(q, k, of, cloexec) => now == if p == q && fd == k then Some(Entry(of, cloexec)) else was
    case Close(q, k) => now == if p == q && fd == k then None else was
    case SetCloexec(q, k, cloexec) =>
      now == if p == q && fd == k && was.Some? then Some(Entry(was.value.of, cloexec)) else was
    case Inherit(q, c, k) =>
      Slot(s, q, k).Some? && now == if p == c && fd == k then Some(Entry(Slot(s, q, k).value.of, false)) else was
    case _ => now == was
  }

  lemma NewLeaves(s: State, step: Step, p: Pid, fd: Fd)
    requires Inv(s) && Enabled(s, step) && (step.NewFile? || step.NewPipe? || step.NewProcess?)
    ensures Leaves(s, step, p, fd, Slot(s, p, fd), Slot(Apply(s, step), p, fd))
  {
    hide FileOk, PipesOk;
  }

  lemma DupLeaves(s: State, step: Step, p: Pid, fd: Fd)
    requires Inv(s) && Enabled(s, step) && (step.Add? || step.Install? || step.Inherit?)
    ensures Leaves(s, step, p, fd, Slot(s, p, fd), Slot(Apply(s, step), p, fd))
  {
    hide FileOk, PipesOk, Put, Take, IsNext;
    match step
    case Add(q, of, cloexec) =>
      OneNext(s, q, LowestFree(s.tables[q]), fd);
      SlotPut(s, q, LowestFree(s.tables[q]), of, cloexec, p, fd);
    case Install(q, k, of, cloexec) =>
      if k in s.tables[q] {
        SlotTake(s, q, k, p, fd);
        SlotPut(Take(s, q, k), q, k, of, cloexec, p, fd);
      } else {
        SlotPut(s, q, k, of, cloexec, p, fd);
      }
    case Inherit(q, c, k) => SlotPut(s, c, k, s.tables[q][k].of, false, p, fd);
  }

  lemma OtherLeaves(s: State, step: Step, p: Pid, fd: Fd)
    requires Inv(s) && Enabled(s, step) && (step.Close? || step.SetCloexec? || step.Unref? || step.Release?)
    ensures Leaves(s, step, p, fd, Slot(s, p, fd), Slot(Apply(s, step), p, fd))
  {
    hide FileOk, PipesOk;
  }

  /**
   A slot changes only if the step names it: new files and duplicates have the flag asked for, a pipe's ends
   and inherited descriptors are not close-on-exec, closing empties the slot.
   */
  lemma SlotResult(s: State, step: Step, p: Pid, fd: Fd)
    requires Inv(s) && Enabled(s, step)
    ensures Leaves(s, step, p, fd, Slot(s, p, fd), Slot(Apply(s, step), p, fd))
  {
    hide Inv, FileOk, PipesOk, AfterRead, AfterWrite;
    if step.NewFile? || step.NewPipe? || step.NewProcess? {
      NewLeaves(s, step, p, fd);
    } else if step.Add? || step.Install? || step.Inherit? {
      DupLeaves(s, step, p, fd);
    } else if !step.PipeRead? && !step.PipeWrite? {
      OtherLeaves(s, step, p, fd);
    }
  }

  lemma OneNext(s: State, p: Pid, a: Fd, b: Fd)
    requires p in s.tables && IsLowestFree(s.tables[p], a)
    ensures IsNext(s, p, b) <==> a == b
  {
    assert IsNext(s, p, a) by {
      forall k | 0x100000 <= k < a ensures Slot(s, p, k).Some? {
        assert k in s.tables[p];
      }
    }
    if IsNext(s, p, b) {
      assert a <= b || Slot(s, p, b).Some?;
      assert b <= a || Slot(s, p, a).Some?;
    }
  }

  /** A pipe changes only by a read or a write of it, or by the release of one of its ends. */
  lemma PipeResult(s: State, step: Step, pp: PipeId)
    requires Inv(s) && Enabled(s, step) && pp in s.pipes
    ensures pp in Apply(s, step).pipes
    ensures var was, now := s.pipes[pp], Apply(s, step).pipes[pp];
            && now.r == was.r && now.w == was.w
            && match step
               case PipeRead(q, n) =>
                 if q == pp then Takes(was.pipe, n, ReadResult(was.pipe, n), now.pipe) else now == was
               case PipeWrite(q, b) =>
                 if q == pp then Puts(was.pipe, b, WriteResult(was.pipe, b), now.pipe) else now == was
               case Release(of) =>
                 && now.pipe.readers == was.pipe.readers - (if of == was.r then 1 else 0)
                 && now.pipe.writers == was.pipe.writers - (if of == was.w then 1 else 0)
                 && now.pipe == was.pipe.(readers := now.pipe.readers, writers := now.pipe.writers)
               case _ => now == was
  {
    hide FileOk, PipesOk, Holders, AfterRead, AfterWrite, ReadResult, WriteResult, Takes, Puts, ReleasedPipes;
    match step
    case PipeRead(q, n) => ReadTakes(s.pipes[q].pipe, n);
    case PipeWrite(q, b) => WritePuts(s.pipes[q].pipe, b);
    case Release(of) => ReleaseResult(s, of, pp);
    case _ =>
  }

  lemma ReleaseResult(s: State, of: OfId, pp: PipeId)
    requires PipesOk(s.files, s.pipes) && of in s.files && pp in s.pipes
    ensures var pipes := ReleasedPipes(s.pipes, of, s.files[of].kind);
            && pp in pipes
            && var was, now := s.pipes[pp], pipes[pp];
               && now == was.(pipe := now.pipe)
               && now.pipe.readers == was.pipe.readers - (if of == was.r then 1 else 0)
               && now.pipe.writers == was.pipe.writers - (if of == was.w then 1 else 0)
               && now.pipe == was.pipe.(readers := now.pipe.readers, writers := now.pipe.writers)
  {
    hide Fifo;
    assert KindOk(s.pipes, of, s.files[of].kind) && PipeOk(s.files, pp, s.pipes[pp]);
  }
}
