/**
 The life of processes with the allocator's cursor, which all kernels of the host share: when a pid
 comes round again, and what that takes.
 */
module PidReuse {
  import opened Common
  import opened Lifecycle
  import Pids

  const ROUND: int := Pids.SLOTS - 1

  /**
   others are the slots of other kernels. moves counts the moves of the cursor, and born says at which count
   each process got its pid.
   */
  datatype Host = Host(s: State, cursor: int, others: set<int>, moves: nat, born: map<ProcId, nat>)

  /** skips is how many taken slots the search for a pid passes. */
  datatype Act =
    | Own(step: Step, skips: nat)
    | OtherTakes(skips: nat)
    | OtherFrees(slot: int)

  function Taken(h: Host): set<int> {
    h.s.procs.Keys + h.others
  }

  /** The step gets a pid for c. */
  function Allocates(step: Step): Option<ProcId> {
    match step
    case Start(c, _) => Some(c)
    case Spawn(_, c, _) => Some(c)
    case _ => None
  }

  ghost predicate Able(h: Host, act: Act) {
    match act
    case Own(step, skips) =>
      && Enabled(h.s, step)
      && (Allocates(step).Some? ==>
            Pids.FirstFree(Taken(h), h.cursor, skips) && step.pid == Pids.Cursor(h.cursor, skips))
    case OtherTakes(skips) => Pids.FirstFree(Taken(h), h.cursor, skips)
    case OtherFrees(slot) => slot in h.others
  }

  ghost function After(h: Host, act: Act): Host
    requires Able(h, act)
  {
    match act
    case Own(step, skips) =>
      if Allocates(step).None? then h.(s := Apply(h.s, step))
      else Host(Apply(h.s, step), Pids.Cursor(h.cursor, skips + 1), h.others, h.moves + skips + 1,
                h.born[Allocates(step).value := h.moves + skips + 1])
    case OtherTakes(skips) =>
      h.(cursor := Pids.Cursor(h.cursor, skips + 1), others := h.others + {Pids.Cursor(h.cursor, skips)},
         moves := h.moves + skips + 1)
    case OtherFrees(slot) => h.(others := h.others - {slot})
  }

  // ---- the cursor ----

  /** The slot the cursor is at after some moves from the first. */
  function SlotAt(moves: nat): int {
    moves % ROUND + 1
  }

  lemma SlotMoves(moves: nat, i: nat)
    requires i <= Pids.SLOTS
    ensures Pids.Cursor(SlotAt(moves), i) == SlotAt(moves + i)
  {
    var m := moves % ROUND;
    assert moves == moves / ROUND * ROUND + m;
    RoundAgain(moves / ROUND, m + i);
  }

  lemma RoundAgain(q: nat, x: nat)
    ensures (q * ROUND + x) % ROUND == x % ROUND
  {
    if q > 0 {
      RoundAgain(q - 1, x);
      assert q * ROUND + x == (q - 1) * ROUND + x + ROUND;
    }
  }

  /** A process's pid is where the cursor was when it got it. */
  ghost predicate BornOk(h: Host, c: ProcId)
    requires c in h.s.ps
  {
    && c in h.born && 1 <= h.born[c] <= h.moves && h.s.ps[c].pid == SlotAt(h.born[c] - 1)
  }

  /** Whoever has a pid is the last who got it. */
  ghost predicate LastOk(h: Host) {
    forall pid, c :: pid in h.s.procs && c in h.s.ps && h.s.ps[c].pid == pid ==>
      h.s.procs[pid] in h.born && c in h.born && h.born[c] <= h.born[h.s.procs[pid]]
  }

  /** No two processes got their pids at the same move. */
  ghost predicate Distinct(h: Host) {
    forall c, d :: c in h.born && d in h.born && c != d ==> h.born[c] != h.born[d]
  }

  ghost predicate CursorOk(h: Host) {
    && h.cursor == SlotAt(h.moves) && h.born.Keys == h.s.ps.Keys
    && (forall c :: c in h.s.ps ==> BornOk(h, c))
    && LastOk(h) && Distinct(h)
  }

  lemma PidsStay(s: State, step: Step)
    requires Enabled(s, step)
    ensures forall c :: c in s.ps ==> c in Apply(s, step).ps && Apply(s, step).ps[c].pid == s.ps[c].pid
    ensures Allocates(step).None? ==> Apply(s, step).ps.Keys == s.ps.Keys && Apply(s, step).procs.Keys <= s.procs.Keys
    ensures Allocates(step).None? ==>
              forall pid :: pid in Apply(s, step).procs ==> Apply(s, step).procs[pid] == s.procs[pid]
    ensures Allocates(step).Some? ==>
              && Apply(s, step).ps.Keys == s.ps.Keys + {step.c} && Apply(s, step).ps[step.c].pid == step.pid
              && Apply(s, step).procs == s.procs[step.pid := step.c] && step.c !in s.ps
  {
    hide GivenBack;
  }

  /** Processes keep their pids, and the table loses entries at most. */
  ghost predicate Fewer(s: State, s': State) {
    && s'.ps.Keys == s.ps.Keys && (forall c :: c in s.ps ==> s'.ps[c].pid == s.ps[c].pid)
    && forall pid :: pid in s'.procs ==> pid in s.procs && s'.procs[pid] == s.procs[pid]
  }

  lemma FewerOk(h: Host, h': Host)
    requires CursorOk(h) && Fewer(h.s, h'.s) && h'.born == h.born && h'.moves >= h.moves
    requires h'.cursor == SlotAt(h'.moves)
    ensures CursorOk(h')
  {
    hide SlotAt;
    forall c | c in h'.s.ps ensures BornOk(h', c) {
      assert BornOk(h, c);
    }
  }

  /** c is born with pid in the step from h to h'. */
  ghost predicate Birth(h: Host, h': Host, c: ProcId, pid: Pid) {
    && c !in h.s.ps && pid !in h.s.procs && h'.moves > h.moves && h'.cursor == SlotAt(h'.moves)
    && pid == SlotAt(h'.moves - 1) && h'.born == h.born[c := h'.moves]
    && h'.s.ps.Keys == h.s.ps.Keys + {c} && h'.s.ps[c].pid == pid && h'.s.procs == h.s.procs[pid := c]
    && forall x :: x in h.s.ps ==> h'.s.ps[x].pid == h.s.ps[x].pid
  }

  lemma BirthLast(h: Host, h': Host, c: ProcId, pid: Pid)
    requires h.born.Keys == h.s.ps.Keys && (forall x :: x in h.born ==> h.born[x] <= h.moves)
    requires Birth(h, h', c, pid) && LastOk(h) && Distinct(h)
    ensures LastOk(h') && Distinct(h')
  {
    hide SlotAt;
    forall q, x | q in h'.s.procs && x in h'.s.ps && h'.s.ps[x].pid == q
      ensures h'.s.procs[q] in h'.born && x in h'.born && h'.born[x] <= h'.born[h'.s.procs[q]]
    {
      if q != pid {
        assert q in h.s.procs && x in h.s.ps && h.s.ps[x].pid == q;
      }
    }
  }

  lemma BirthOk(h: Host, h': Host, c: ProcId, pid: Pid)
    requires CursorOk(h) && Birth(h, h', c, pid)
    ensures CursorOk(h')
  {
    hide SlotAt, LastOk, Distinct;
    forall x | x in h.born ensures h.born[x] <= h.moves {
      assert BornOk(h, x);
    }
    BirthLast(h, h', c, pid);
    forall x | x in h'.s.ps ensures BornOk(h', x) {
      assert x != c ==> BornOk(h, x);
    }
  }

  lemma AfterOk(h: Host, act: Act)
    requires CursorOk(h) && Able(h, act)
    ensures CursorOk(After(h, act))
  {
    assert h.cursor == SlotAt(h.moves);
    hide CursorOk, SlotAt, Enabled, Apply;
    match act
    case Own(step, skips) =>
      PidsStay(h.s, step);
      if Allocates(step).Some? {
        SlotMoves(h.moves, skips);
        SlotMoves(h.moves, skips + 1);
        assert step.pid !in h.s.procs;
        BirthOk(h, After(h, act), step.c, step.pid);
      } else {
        FewerOk(h, After(h, act));
      }
    case OtherTakes(skips) =>
      SlotMoves(h.moves, skips + 1);
      FewerOk(h, After(h, act));
    case OtherFrees(_) => FewerOk(h, After(h, act));
  }

  lemma SlotComesRound(x: nat, y: nat)
    requires SlotAt(x) == SlotAt(y) && x < y
    ensures y >= x + ROUND
  {
    var p, q := x / ROUND, y / ROUND;
    assert x == p * ROUND + x % ROUND && y == q * ROUND + y % ROUND;
    assert (q - p) * ROUND == y - x;
    assert q > p;
  }

  /** Two processes with one pid got it whole rounds apart. */
  lemma SamePidRoundsApart(h: Host, c: ProcId, d: ProcId)
    requires CursorOk(h) && c in h.s.ps && d in h.s.ps && c != d && h.s.ps[c].pid == h.s.ps[d].pid
    requires h.born[c] <= h.born[d]
    ensures h.born[d] >= h.born[c] + ROUND
  {
    hide SlotAt;
    assert BornOk(h, c) && BornOk(h, d);
    SlotComesRound(h.born[c] - 1, h.born[d] - 1);
  }

  /** Within one round of the cursor after a process got its pid, nobody else has it. */
  lemma OneRoundIsSafe(h: Host, c: ProcId)
    requires CursorOk(h) && TableOk(h.s) && c in h.s.ps && h.moves - h.born[c] < ROUND
    ensures Undisturbed(h.s, Section(c))
  {
    var pid := h.s.ps[c].pid;
    if pid in h.s.procs && h.s.procs[pid] != c {
      assert BornOk(h, h.s.procs[pid]);
      SamePidRoundsApart(h, c, h.s.procs[pid]);
    }
  }

  // ---- runs ----

  const INITIAL := Host(EMPTY, 1, {}, 0, map[])

  ghost predicate Leads(h: Host, act: Act, h': Host) {
    Able(h, act) && h' == After(h, act)
  }

  ghost predicate IsHostRun(run: seq<Host>, acts: seq<Act>) {
    && |run| == |acts| + 1 && run[0] == INITIAL
    && forall i :: 0 <= i < |acts| ==> Leads(run[i], acts[i], run[i + 1])
  }

  /**
   An exiting orphan whose pid has been given back already reaches its section within a round of the cursor
   after it got that pid.
   */
  ghost predicate Prompt(h: Host, act: Act) {
    act.Own? && act.step.Section? && act.step.c in h.s.ps && act.step.c in h.born
    && Orphan(h.s.ps[act.step.c]) && !Registered(h.s, act.step.c) ==>
      h.moves - h.born[act.step.c] < ROUND
  }

  lemma {:induction false} HostRunInv(run: seq<Host>, acts: seq<Act>, i: nat)
    requires IsHostRun(run, acts) && i < |run| && forall j :: 0 <= j < i ==> Prompt(run[j], acts[j])
    ensures Inv(run[i].s) && CursorOk(run[i])
    decreases i
  {
    if i > 0 {
      HostRunInv(run, acts, i - 1);
      var h, act := run[i - 1], acts[i - 1];
      assert Leads(h, act, run[i]) && Prompt(h, act);
      AfterOk(h, act);
      if act.Own? {
        if act.step.Section? && Orphan(h.s.ps[act.step.c]) && !Registered(h.s, act.step.c) {
          OneRoundIsSafe(h, act.step.c);
        }
        hide Inv;
        StepInv(h.s, act.step);
      }
    }
  }

  /**
   With the allocator as it is, processes can count on their lifecycle in every run in which an exiting orphan
   whose pid its parent has given back reaches its section within a round of the cursor since it got that pid.
   */
  lemma PromptLifecycles(run: seq<Host>, acts: seq<Act>, i: nat, c: ProcId)
    requires IsHostRun(run, acts) && i < |run| && c in run[i].s.ps && forall j :: 0 <= j < i ==> Prompt(run[j], acts[j])
    ensures LifeOk(run[i].s, c)
  {
    HostRunInv(run, acts, i);
    InvLife(run[i].s, c);
  }

  /** No slot is ever in use by two kernels of the host. */
  lemma {:induction false} KernelsApart(run: seq<Host>, acts: seq<Act>, i: nat)
    requires IsHostRun(run, acts) && i < |run|
    ensures forall pid: int :: pid in run[i].s.procs.Keys ==> pid !in run[i].others
    decreases i
  {
    hide Apply, Enabled;
    if i > 0 {
      KernelsApart(run, acts, i - 1);
      assert Leads(run[i - 1], acts[i - 1], run[i]);
      if acts[i - 1].Own? {
        PidsStay(run[i - 1].s, acts[i - 1].step);
      }
    }
  }

  /** Act j lets another kernel take slot, and it is not freed between j and i. */
  ghost predicate TookAt(run: seq<Host>, acts: seq<Act>, slot: int, j: nat, i: nat)
    requires IsHostRun(run, acts) && i < |run|
  {
    && j < i && acts[j].OtherTakes? && Able(run[j], acts[j]) && slot == Pids.Cursor(run[j].cursor, acts[j].skips)
    && forall t :: j < t < i ==> acts[t] != OtherFrees(slot)
  }

  /** The others use the slots they have taken and not freed since. */
  lemma {:induction false} OthersExactly(run: seq<Host>, acts: seq<Act>, i: nat, slot: int)
    requires IsHostRun(run, acts) && i < |run|
    ensures slot in run[i].others <==> exists j :: TookAt(run, acts, slot, j, i)
    decreases i
  {
    hide Apply, Enabled, Pids.Cursor;
    if i > 0 {
      OthersExactly(run, acts, i - 1, slot);
      assert Leads(run[i - 1], acts[i - 1], run[i]);
      var last := i - 1;
      if acts[last].OtherTakes? && slot == Pids.Cursor(run[last].cursor, acts[last].skips) {
        assert TookAt(run, acts, slot, last, i);
      } else if slot in run[last].others && acts[last] != OtherFrees(slot) {
        var j :| TookAt(run, acts, slot, j, last);
        assert TookAt(run, acts, slot, j, i);
      } else {
        assert forall j: nat :: TookAt(run, acts, slot, j, i) ==> TookAt(run, acts, slot, j, last);
      }
    }
  }

  /** The steps of this kernel's own processes. */
  function OwnSteps(acts: seq<Act>): seq<Step> {
    if acts == [] then []
    else OwnSteps(acts[..|acts| - 1]) + match acts[|acts| - 1] case Own(step, _) => [step] case _ => []
  }

  /**
   Such a run is an undisturbed run of the kernel's own steps, so that all that is said of those holds of it too:
   waitpid returns statuses as ReapedStatus says.
   */
  lemma {:induction false} OwnRun(run: seq<Host>, acts: seq<Act>, i: nat) returns (own: seq<State>)
    requires IsHostRun(run, acts) && i < |run| && forall j :: 0 <= j < i ==> Prompt(run[j], acts[j])
    ensures var steps := OwnSteps(acts[..i]);
            && IsRun(own, steps) && own[|steps|] == run[i].s
            && forall j :: 0 <= j < |steps| ==> Undisturbed(own[j], steps[j])
    decreases i
  {
    hide Inv, CursorOk, Apply, Prompt, Able, Undisturbed;
    if i == 0 {
      own := [EMPTY];
    } else {
      own := OwnRun(run, acts, i - 1);
      HostRunInv(run, acts, i - 1);
      var h, act := run[i - 1], acts[i - 1];
      assert Leads(h, act, run[i]) && Prompt(h, act);
      assert acts[..i][..i - 1] == acts[..i - 1];
      if act.Own? {
        PromptIsUndisturbed(h, act);
        OwnStep(h, act, run[i]);
        own := LongerRun(own, OwnSteps(acts[..i - 1]), act.step, run[i].s);
      } else {
        OthersStep(h, act, run[i]);
        assert OwnSteps(acts[..i - 1]) + [] == OwnSteps(acts[..i - 1]);
      }
    }
  }

  lemma OwnStep(h: Host, act: Act, h': Host)
    requires Leads(h, act, h') && act.Own?
    ensures StepsTo(h.s, act.step, h'.s)
  {
  }

  lemma OthersStep(h: Host, act: Act, h': Host)
    requires Leads(h, act, h') && !act.Own?
    ensures h'.s == h.s
  {
  }

  lemma LongerRun(run: seq<State>, steps: seq<Step>, step: Step, s: State) returns (run': seq<State>)
    requires IsRun(run, steps) && StepsTo(run[|steps|], step, s) && Undisturbed(run[|steps|], step)
    requires forall j :: 0 <= j < |steps| ==> Undisturbed(run[j], steps[j])
    ensures IsRun(run', steps + [step]) && run'[|steps| + 1] == s
    ensures forall j :: 0 <= j < |steps| + 1 ==> Undisturbed(run'[j], (steps + [step])[j])
  {
    hide StepsTo, Undisturbed;
    run' := run + [s];
  }

  lemma PromptIsUndisturbed(h: Host, act: Act)
    requires Inv(h.s) && CursorOk(h) && Able(h, act) && Prompt(h, act) && act.Own?
    ensures Undisturbed(h.s, act.step)
  {
    if act.step.Section? && Orphan(h.s.ps[act.step.c]) && !Registered(h.s, act.step.c) {
      OneRoundIsSafe(h, act.step.c);
    }
  }

  /** What waitpid has returned in such a run, told by the steps. */
  lemma PromptStatus(run: seq<Host>, acts: seq<Act>, i: nat, c: ProcId, st: int)
    requires IsHostRun(run, acts) && i < |run| && forall j :: 0 <= j < i ==> Prompt(run[j], acts[j])
    ensures var steps := OwnSteps(acts[..i]);
            (c, st) in run[i].s.log <==>
              && (exists j :: j < |steps| && ReapsAt(steps, j, c))
              && (exists j :: ExitedOnce(steps, |steps|, c, j, st))
  {
    var own := OwnRun(run, acts, i);
    ReapedStatus(own, OwnSteps(acts[..i]), |OwnSteps(acts[..i])|, c, st);
  }

  // ---- a run in which a pid is lost ----

  lemma Snoc(run: seq<Host>, acts: seq<Act>, act: Act, h: Host) returns (run': seq<Host>, acts': seq<Act>)
    requires IsHostRun(run, acts) && Leads(run[|acts|], act, h)
    ensures IsHostRun(run', acts') && run' == run + [h] && acts' == acts + [act]
  {
    hide Leads;
    run', acts' := run + [h], acts + [act];
  }

  const PARENT := Proc(1, None, Running, 0, Idle, {1}, false, 0)
  const CHILD := Proc(2, Some(0), Running, 0, Idle, {}, false, 0)

  /** A parent with pid 1 and its child with pid 2 run, nobody else does, and the cursor has made moves. */
  ghost predicate Waiting(h: Host, moves: nat) {
    && h.s.procs == map[1 := 0, 2 := 1] && h.others == {} && h.moves == moves && h.cursor == SlotAt(moves)
    && 0 in h.s.ps && h.s.ps[0] == PARENT && 1 in h.s.ps && h.s.ps[1] == CHILD
    && (forall x :: x in h.s.ps ==> x < moves)
    && 1 in h.born && h.born[1] == 2
  }

  lemma Begins() returns (run: seq<Host>, acts: seq<Act>)
    ensures IsHostRun(run, acts) && Waiting(run[|acts|], 2)
  {
    var a1 := Own(Start(0, 1), 0);
    var h1 := After(INITIAL, a1);
    run, acts := Snoc([INITIAL], [], a1, h1);
    var a2 := Own(Spawn(0, 1, 2), 0);
    var h2 := After(h1, a2);
    run, acts := Snoc(run, acts, a2, h2);
    var a3 := Own(Adopt(0), 0);
    var h3 := After(h2, a3);
    run, acts := Snoc(run, acts, a3, h3);
    assert h3.s.ps[0].children == {1};
    assert h3.s.procs == map[1 := 0, 2 := 1];
  }

  /** Somebody starts, who gets the next pid. */
  lemma Comes(h: Host, moves: nat) returns (h1: Host)
    requires Waiting(h, moves) && 2 <= moves < ROUND
    ensures SlotAt(moves) == moves + 1 && Leads(h, Own(Start(moves, SlotAt(moves)), 0), h1)
    ensures h1.s.ps == h.s.ps[moves := Proc(moves + 1, None, Running, 0, Idle, {}, false, 0)]
    ensures h1.s.procs == map[1 := 0, 2 := 1, moves + 1 := moves] && h1.others == {}
    ensures h1.moves == moves + 1 && h1.cursor == SlotAt(moves + 1) && 1 in h1.born && h1.born[1] == 2
  {
    SlotMoves(moves, 1);
    h1 := After(h, Own(Start(moves, SlotAt(moves)), 0));
  }

  /** A process that starts, exits and is gone moves the cursor by one. */
  lemma ComesAndGoes(h: Host, moves: nat) returns (h1: Host, h2: Host, h3: Host)
    requires Waiting(h, moves) && 2 <= moves < ROUND
    ensures Leads(h, Own(Start(moves, SlotAt(moves)), 0), h1)
    ensures Leads(h1, Own(Exit(moves, 0), 0), h2) && Leads(h2, Own(Section(moves), 0), h3)
    ensures Waiting(h3, moves + 1)
  {
    h1 := Comes(h, moves);
    hide SlotAt;
    h2 := After(h1, Own(Exit(moves, 0), 0));
    h3 := After(h2, Own(Section(moves), 0));
    assert GivenBack(h2.s, moves) == {moves + 1};
    assert h3.s.procs == map[1 := 0, 2 := 1];
  }

  lemma {:induction false} GoesRound(moves: nat) returns (run: seq<Host>, acts: seq<Act>)
    requires 2 <= moves <= ROUND
    ensures IsHostRun(run, acts) && Waiting(run[|acts|], moves)
    decreases moves
  {
    if moves == 2 {
      run, acts := Begins();
    } else {
      hide Waiting, Leads, IsHostRun;
      run, acts := GoesRound(moves - 1);
      RunLength(run, acts);
      var h1, h2, h3 := ComesAndGoes(run[|acts|], moves - 1);
      run, acts := Snoc(run, acts, Own(Start(moves - 1, SlotAt(moves - 1)), 0), h1);
      run, acts := Snoc(run, acts, Own(Exit(moves - 1, 0), 0), h2);
      run, acts := Snoc(run, acts, Own(Section(moves - 1), 0), h3);
    }
  }

  lemma RunLength(run: seq<Host>, acts: seq<Act>)
    requires IsHostRun(run, acts)
    ensures |run| == |acts| + 1
  {
  }

  /** The parent gives back both pids, they are handed out again, and the child gives its own back once more. */
  lemma GivenBackTwice(h: Host) returns (h1: Host, h2: Host, h3: Host)
    requires Waiting(h, ROUND)
    ensures Leads(h, Own(Exit(1, 0), 0), h1) && Leads(h1, Own(Exit(0, 0), 0), h2) && Leads(h2, Own(Section(0), 0), h3)
    ensures h3.s.procs == map[] && h3.others == {} && h3.cursor == 1 && h3.moves == ROUND && h3.born == h.born
    ensures (forall x :: x in h3.s.ps ==> x < ROUND) && 1 in h3.s.ps
    ensures h3.s.ps[1] == CHILD.(phase := Exited, parentGone := true)
  {
    h1 := After(h, Own(Exit(1, 0), 0));
    h2 := After(h1, Own(Exit(0, 0), 0));
    h3 := After(h2, Own(Section(0), 0));
    assert h2.s.ps[1].pid in GivenBack(h2.s, 0) && h2.s.ps[0].pid in GivenBack(h2.s, 0);
    assert h3.s.procs == map[];
  }

  lemma TakenOnceMore(h: Host) returns (h1: Host, h2: Host, h3: Host)
    requires h.s.procs == map[] && h.others == {} && h.cursor == 1 && h.moves == ROUND && 1 in h.born && h.born[1] == 2
    requires (forall x :: x in h.s.ps ==> x < ROUND) && 1 in h.s.ps
    requires h.s.ps[1] == CHILD.(phase := Exited, parentGone := true)
    ensures Leads(h, Own(Start(ROUND, 1), 0), h1) && Leads(h1, Own(Start(ROUND + 1, 2), 0), h2)
    ensures Leads(h2, Own(Section(1), 0), h3) && h2.moves - h2.born[1] == ROUND
    ensures ROUND + 1 in h3.s.ps && h3.s.ps[ROUND + 1].phase == Running && !Registered(h3.s, ROUND + 1)
  {
    h1 := After(h, Own(Start(ROUND, 1), 0));
    h2 := After(h1, Own(Start(ROUND + 1, 2), 0));
    h3 := After(h2, Own(Section(1), 0));
  }

  /**
   A run of the code's own that ends with a running process whose pid nobody is registered under: a child
   is between its two sections when its pid, given back by its parent, is handed out again. That takes
   exactly one round of the cursor since the child got it; a move less, and PromptLifecycles would apply.
   */
  lemma PidLost() returns (run: seq<Host>, acts: seq<Act>)
    ensures IsHostRun(run, acts) && |acts| > 0 && |run| == |acts| + 1
    ensures var h := run[|acts| - 1];
            acts[|acts| - 1] == Own(Section(1), 0) && 1 in h.born && h.moves - h.born[1] == ROUND
    ensures var s := run[|acts|].s; ROUND + 1 in s.ps && s.ps[ROUND + 1].phase == Running && !Registered(s, ROUND + 1)
  {
    run, acts := GoesRound(ROUND);
    var h1, h2, h3 := GivenBackTwice(run[|acts|]);
    var h4, h5, h6 := TakenOnceMore(h3);
    hide Waiting, Leads;
    run, acts := Snoc(run, acts, Own(Exit(1, 0), 0), h1);
    run, acts := Snoc(run, acts, Own(Exit(0, 0), 0), h2);
    run, acts := Snoc(run, acts, Own(Section(0), 0), h3);
    run, acts := Snoc(run, acts, Own(Start(ROUND, 1), 0), h4);
    run, acts := Snoc(run, acts, Own(Start(ROUND + 1, 2), 0), h5);
    run, acts := Snoc(run, acts, Own(Section(1), 0), h6);
  }
}
