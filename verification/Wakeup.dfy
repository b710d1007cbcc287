/**
 Blocking: a waiter takes the change channels of everything it waits for, then checks each, then
 parks until one of the channels is closed. This is the loop of io, semaLock, waitpid and poll,
 here as steps that interleave with every step that changes what is waited for.
 */
module Wakeup {
  import opened Common
  import Pipes

  type Rid = nat
  type Wid = nat

  /** kids says of each unreaped child whether it is done. The other counts of a semaphore are what happened to it. */
  datatype Res =
    | Sema(count: int, initial: int, unlocks: nat, locks: nat, lost: int)
    | Pipe(p: Pipes.Pipe)
    | Kids(kids: map<nat, bool>)

  /** The polled variants say whether POLLIN or POLLOUT is asked for: POLLHUP and POLLERR always are. */
  datatype Want =
    | Lock
    | Read(n: nat) | Write(bytes: seq<Pipes.Byte>)
    | PollIn(asked: bool) | PollOut(asked: bool)
    | AnyChild | Child(pid: nat)

  /**
   A resource and its notifier: the open channel, the number of channels ever made, and the notifications still
   to come.
   */
  datatype Cell = Cell(res: Res, cur: Option<nat>, made: nat, owed: nat)

  datatype Target = Target(r: Rid, want: Want)

  datatype Waiter = Waiter(wants: seq<Target>, taken: seq<nat>, checked: nat, parked: bool)

  datatype State = State(cells: map<Rid, Cell>, waiters: map<Wid, Waiter>)

  datatype Step =
    | Begin(w: Wid, wants: seq<Target>) | Take(w: Wid) | Miss(w: Wid) | Hit(w: Wid, who: nat)
    | Park(w: Wid) | Wake(w: Wid) | Leave(w: Wid)
    | Unlock(r: Rid) | Reset(r: Rid) | CloseReader(r: Rid) | CloseWriter(r: Rid)
    | Fork(r: Rid, pid: nat) | ChildDone(r: Rid, pid: nat)
    | Notify(r: Rid)

  /** Trying now would not be refused with EAGAIN. */
  ghost predicate Ready(res: Res, want: Want) {
    match want
    case Lock => res.Sema? ==> res.count > 0
    case Read(n) => res.Pipe? ==> Pipes.ReadResult(res.p, n) != Pipes.Eagain
    case Write(bytes) => res.Pipe? ==> Pipes.WriteResult(res.p, bytes) != Pipes.Eagain
    case PollIn(asked) => res.Pipe? ==> (asked && res.p.buf != []) || res.p.writers == 0
    case PollOut(asked) => res.Pipe? ==> res.p.readers == 0 || (asked && Pipes.CAPACITY - |res.p.buf| >= Pipes.ATOMIC)
    case AnyChild => res.Kids? ==> res.kids == map[] || exists pid :: pid in res.kids && res.kids[pid]
    case Child(pid) => res.Kids? ==> pid in res.kids ==> res.kids[pid]
  }

  /** The resource after a try that is not refused; waitpid for any child reaps who. */
  function Tried(res: Res, want: Want, who: nat): Res {
    match want
    case Lock => if res.Sema? then res.(count := res.count - 1, locks := res.locks + 1) else res
    case Read(n) => if res.Pipe? then Pipe(Pipes.AfterRead(res.p, n)) else res
    case Write(bytes) => if res.Pipe? then Pipe(Pipes.AfterWrite(res.p, bytes)) else res
    case AnyChild => if res.Kids? then Kids(res.kids - {who}) else res
    case Child(pid) => if res.Kids? then Kids(res.kids - {pid}) else res
    case _ => res
  }

  /** A pipe's read and write notify under the pipe's lock when they move bytes. */
  predicate NotifiesAtOnce(res: Res, want: Want) {
    res.Pipe? &&
    match want
    case Read(n) => n > 0 && res.p.buf != []
    case Write(bytes) => bytes != [] && Pipes.WriteResult(res.p, bytes).Wrote?
    case _ => false
  }

  function Closed(c: Cell): Cell {
    c.(cur := None)
  }

  predicate IsOpen(c: Cell, g: nat) {
    c.cur == Some(g)
  }

  function Next(v: Waiter): Target
    requires v.checked < |v.wants|
  {
    v.wants[v.checked]
  }

  predicate Checking(s: State, w: Wid) {
    && w in s.waiters
    && var v := s.waiters[w];
    |v.taken| == |v.wants| && v.checked < |v.wants| && !v.parked && Next(v).r in s.cells
  }

  ghost predicate Enabled(s: State, step: Step) {
    match step
    case Begin(w, wants) => w !in s.waiters && forall i :: 0 <= i < |wants| ==> wants[i].r in s.cells
    case Take(w) =>
      w in s.waiters && var v := s.waiters[w]; |v.taken| < |v.wants| && v.wants[|v.taken|].r in s.cells
    case Miss(w) => Checking(s, w) && !Ready(s.cells[Next(s.waiters[w]).r].res, Next(s.waiters[w]).want)
    case Hit(w, who) =>
      && Checking(s, w)
      && var t := Next(s.waiters[w]);
      && var res := s.cells[t.r].res;
      && Ready(res, t.want)
      && (t.want.AnyChild? && res.Kids? && res.kids != map[] ==> who in res.kids && res.kids[who])
    case Park(w) =>
      w in s.waiters && var v := s.waiters[w]; v.checked == |v.wants| == |v.taken| && !v.parked
    case Wake(w) => w in s.waiters && s.waiters[w].parked && Woken(s, s.waiters[w])
    case Leave(w) => w in s.waiters
    case Unlock(r) => r in s.cells && s.cells[r].res.Sema?
    case Reset(r) => r in s.cells && s.cells[r].res.Sema?
    case CloseReader(r) => r in s.cells && s.cells[r].res.Pipe?
    case CloseWriter(r) => r in s.cells && s.cells[r].res.Pipe?
    case Fork(r, pid) => r in s.cells && s.cells[r].res.Kids? && pid !in s.cells[r].res.kids
    case ChildDone(r, pid) => r in s.cells && s.cells[r].res.Kids? && pid in s.cells[r].res.kids
    case Notify(r) => r in s.cells && s.cells[r].owed > 0
  }

  /** One of the channels the waiter has taken is closed. */
  ghost predicate Woken(s: State, v: Waiter) {
    exists i :: 0 <= i < |v.taken| && i < |v.wants| && v.wants[i].r in s.cells
                && !IsOpen(s.cells[v.wants[i].r], v.taken[i])
  }

  /** wait: the open channel, made if there is none. */
  function Waited(c: Cell): Cell {
    if c.cur.Some? then c else c.(cur := Some(c.made), made := c.made + 1)
  }

  function Changed(c: Cell, res: Res): Cell {
    c.(res := res, owed := c.owed + 1)
  }

  /** The cell of the resource a step touches, after it. */
  function After(s: State, r: Rid, step: Step): Cell
    requires r in s.cells
  {
    var c := s.cells[r];
    match step
    case Take(_) => Waited(c)
    case Hit(w, who) =>
      if !Checking(s, w) then c else
      var want := Next(s.waiters[w]).want;
      var c' := c.(res := Tried(c.res, want, who));
      if NotifiesAtOnce(c.res, want) then Closed(c') else c'
    case Unlock(_) =>
      if c.res.Sema? then Changed(c, c.res.(count := c.res.count + 1, unlocks := c.res.unlocks + 1)) else c
    case Reset(_) => if c.res.Sema? then c.(res := c.res.(count := 0, lost := c.res.lost + c.res.count)) else c
    case CloseReader(_) => if c.res.Pipe? then Changed(c, Pipe(c.res.p.(readers := c.res.p.readers - 1))) else c
    case CloseWriter(_) => if c.res.Pipe? then Changed(c, Pipe(c.res.p.(writers := c.res.p.writers - 1))) else c
    case Fork(_, pid) => if c.res.Kids? then c.(res := Kids(c.res.kids[pid := false])) else c
    case ChildDone(_, pid) => if c.res.Kids? then Changed(c, Kids(c.res.kids[pid := true])) else c
    case Notify(_) => if c.owed > 0 then Closed(c).(owed := c.owed - 1) else c
    case _ => c
  }

  /** The resource a step touches. */
  ghost function Touched(s: State, step: Step): Option<Rid>
    requires Enabled(s, step)
  {
    match step
    case Take(w) => Some(s.waiters[w].wants[|s.waiters[w].taken|].r)
    case Hit(w, _) => Some(Next(s.waiters[w]).r)
    case Unlock(r) => Some(r)
    case Reset(r) => Some(r)
    case CloseReader(r) => Some(r)
    case CloseWriter(r) => Some(r)
    case Fork(r, _) => Some(r)
    case ChildDone(r, _) => Some(r)
    case Notify(r) => Some(r)
    case _ => None
  }

  ghost function WaitersAfter(s: State, step: Step): map<Wid, Waiter>
    requires Enabled(s, step)
  {
    var ws := s.waiters;
    match step
    case Begin(w, wants) => ws[w := Waiter(wants, [], 0, false)]
    case Take(w) =>
      var r := ws[w].wants[|ws[w].taken|].r;
      ws[w := ws[w].(taken := ws[w].taken + [Waited(s.cells[r]).cur.value])]
    case Miss(w) => ws[w := ws[w].(checked := ws[w].checked + 1)]
    case Hit(w, _) => ws - {w}
    case Park(w) => ws[w := ws[w].(parked := true)]
    case Wake(w) => ws[w := Waiter(ws[w].wants, [], 0, false)]
    case Leave(w) => ws - {w}
    case _ => ws
  }

  ghost function Apply(s: State, step: Step): State
    requires Enabled(s, step)
  {
    match Touched(s, step)
    case None => s.(waiters := WaitersAfter(s, step))
    case Some(r) => State(s.cells[r := After(s, r, step)], WaitersAfter(s, step))
  }

  // ---- the invariant ----

  /** Locks taken, and units thrown away by resets, come from the initial count and unlocks. */
  predicate Conserved(res: Res) {
    res.Sema? ==>
      && res.count + res.locks + res.lost == res.initial + res.unlocks
      && (res.initial >= 0 ==> res.count >= 0 && res.lost >= 0)
  }

  predicate CellOk(c: Cell) {
    (c.cur.Some? ==> c.cur.value < c.made) && Conserved(c.res)
  }

  /** A waiter that has found want not ready has a closed channel, or will have, or it still is not. */
  ghost predicate TargetOk(c: Cell, want: Want, g: nat, checked: bool) {
    g < c.made && (checked && IsOpen(c, g) && Ready(c.res, want) ==> c.owed > 0)
  }

  ghost predicate WaiterOk(s: State, v: Waiter) {
    && |v.taken| <= |v.wants| && v.checked <= |v.taken|
    && (v.checked > 0 || v.parked ==> |v.taken| == |v.wants|)
    && (v.parked ==> v.checked == |v.wants|)
    && (forall i :: 0 <= i < |v.wants| ==> v.wants[i].r in s.cells)
    && (forall i :: 0 <= i < |v.taken| ==> TargetOk(s.cells[v.wants[i].r], v.wants[i].want, v.taken[i], i < v.checked))
  }

  ghost predicate Inv(s: State) {
    && (forall r :: r in s.cells ==> CellOk(s.cells[r]))
    && (forall w :: w in s.waiters ==> WaiterOk(s, s.waiters[w]))
  }

  // ---- a change of one resource ----

  /** No waiter with an open channel can miss the change from c to c'. */
  ghost predicate Heard(c: Cell, c': Cell) {
    && c'.made >= c.made
    && (c'.cur == c.cur || c'.cur == None || c'.cur == Some(c.made))
    && (c'.cur.Some? && c'.cur == c.cur ==>
          c'.owed > 0 || (c.owed == 0 && forall want :: Ready(c'.res, want) ==> Ready(c.res, want)))
  }

  lemma HeardTarget(c: Cell, c': Cell, want: Want, g: nat, checked: bool)
    requires Heard(c, c') && TargetOk(c, want, g, checked)
    ensures TargetOk(c', want, g, checked)
  {
    hide Ready;
  }

  /** What a try leaves is ready for nothing it was not ready for, unless all channels are closed. */
  lemma TriedHeard(res: Res, want: Want, who: nat, other: Want)
    requires Ready(res, want) && !NotifiesAtOnce(res, want)
    requires want.AnyChild? && res.Kids? && res.kids != map[] ==> who in res.kids && res.kids[who]
    requires Ready(Tried(res, want, who), other)
    ensures Ready(res, other)
  {
    match want
    case Read(n) =>
      if res.Pipe? {
        assert Pipes.AfterRead(res.p, n).buf == res.p.buf;
      }
    case Write(bytes) =>
      if res.Pipe? {
        assert Pipes.AfterWrite(res.p, bytes).buf == res.p.buf;
      }
    case AnyChild =>
      if res.Kids? && res.kids == map[] {
        assert res.kids - {who} == map[];
      }
    case _ =>
  }

  lemma TryHeard(s: State, w: Wid, who: nat)
    requires Enabled(s, Hit(w, who))
    ensures var r := Next(s.waiters[w]).r; Heard(s.cells[r], After(s, r, Hit(w, who)))
  {
    var t := Next(s.waiters[w]);
    var c := s.cells[t.r];
    if !NotifiesAtOnce(c.res, t.want) {
      forall other | Ready(Tried(c.res, t.want, who), other) ensures Ready(c.res, other) {
        TriedHeard(c.res, t.want, who, other);
      }
    }
  }

  lemma ForkHeard(res: Res, pid: nat, other: Want)
    requires res.Kids? && pid !in res.kids && Ready(Kids(res.kids[pid := false]), other)
    ensures Ready(res, other)
  {
    if other.AnyChild? {
      var kids := res.kids[pid := false];
      assert pid in kids;
      assert kids != map[];
      var d :| d in kids && kids[d];
      assert d in res.kids && res.kids[d];
    }
  }

  lemma StepHeard(s: State, step: Step)
    requires Enabled(s, step) && Touched(s, step).Some?
    ensures var r := Touched(s, step).value; Heard(s.cells[r], After(s, r, step))
  {
    match step
    case Hit(w, who) => TryHeard(s, w, who);
    case Fork(r, pid) =>
      var res := s.cells[r].res;
      forall other | Ready(Kids(res.kids[pid := false]), other) ensures Ready(res, other) {
        ForkHeard(res, pid, other);
      }
    case _ =>
  }

  lemma StepCell(s: State, step: Step)
    requires Enabled(s, step) && Touched(s, step).Some? && CellOk(s.cells[Touched(s, step).value])
    ensures CellOk(After(s, Touched(s, step).value, step))
  {
  }

  // ---- every step keeps the invariant ----

  lemma HeardWaiter(s: State, s': State, r: Rid, v: Waiter)
    requires r in s.cells && s'.cells.Keys == s.cells.Keys && Heard(s.cells[r], s'.cells[r]) && WaiterOk(s, v)
    requires forall x :: x in s.cells && x != r ==> s'.cells[x] == s.cells[x]
    ensures WaiterOk(s', v)
  {
    hide Heard, TargetOk;
    forall i | 0 <= i < |v.taken| ensures TargetOk(s'.cells[v.wants[i].r], v.wants[i].want, v.taken[i], i < v.checked) {
      if v.wants[i].r == r {
        HeardTarget(s.cells[r], s'.cells[r], v.wants[i].want, v.taken[i], i < v.checked);
      }
    }
  }

  /** A waiter that takes its next channel. */
  lemma TakeOk(s: State, v: Waiter)
    requires WaiterOk(s, v) && |v.taken| < |v.wants|
    requires var c := s.cells[v.wants[|v.taken|].r]; c.cur.Some? && c.cur.value < c.made
    ensures WaiterOk(s, v.(taken := v.taken + [s.cells[v.wants[|v.taken|].r].cur.value]))
  {
    hide Ready;
  }

  lemma MissOk(s: State, v: Waiter)
    requires WaiterOk(s, v) && v.checked < |v.wants| == |v.taken| && !v.parked
    requires !Ready(s.cells[Next(v).r].res, Next(v).want)
    ensures WaiterOk(s, v.(checked := v.checked + 1))
  {
    hide Ready;
    var v' := v.(checked := v.checked + 1);
    forall i | 0 <= i < |v'.taken|
      ensures TargetOk(s.cells[v'.wants[i].r], v'.wants[i].want, v'.taken[i], i < v'.checked)
    {
      assert TargetOk(s.cells[v.wants[i].r], v.wants[i].want, v.taken[i], i < v.checked);
    }
  }

  lemma StepWaiter(s: State, step: Step, x: Wid)
    requires Inv(s) && Enabled(s, step) && x in Apply(s, step).waiters
    ensures WaiterOk(Apply(s, step), Apply(s, step).waiters[x])
  {
    hide Ready, Heard, TargetOk;
    var s' := Apply(s, step);
    if Touched(s, step).Some? {
      StepHeard(s, step);
      if x in s.waiters {
        HeardWaiter(s, s', Touched(s, step).value, s.waiters[x]);
      }
      if step == Take(x) {
        TakeOk(s', s.waiters[x]);
      }
    } else if step == Miss(x) {
      MissOk(s, s.waiters[x]);
      assert s'.cells == s.cells;
    } else {
      assert s'.cells == s.cells;
    }
  }

  lemma StepInv(s: State, step: Step)
    requires Inv(s) && Enabled(s, step)
    ensures Inv(Apply(s, step))
  {
    hide WaiterOk, CellOk;
    if Touched(s, step).Some? {
      StepCell(s, step);
    }
    forall x | x in Apply(s, step).waiters ensures WaiterOk(Apply(s, step), Apply(s, step).waiters[x]) {
      StepWaiter(s, step, x);
    }
  }

  // ---- runs ----

  ghost predicate Initial(s: State) {
    && s.waiters == map[]
    && forall r :: r in s.cells ==>
         && s.cells[r].owed == 0 && s.cells[r].cur == None && s.cells[r].made == 0
         && Conserved(s.cells[r].res) && (s.cells[r].res.Sema? ==> s.cells[r].res.lost == 0)
  }

  ghost predicate IsRun(run: seq<State>, steps: seq<Step>) {
    && |run| == |steps| + 1 && Initial(run[0])
    && forall i :: 0 <= i < |steps| ==> StepsTo(run[i], steps[i], run[i + 1])
  }

  ghost predicate StepsTo(s: State, step: Step, s': State) {
    Enabled(s, step) && s' == Apply(s, step)
  }

  lemma {:induction false} RunInv(run: seq<State>, steps: seq<Step>, i: nat)
    requires IsRun(run, steps) && i < |run|
    ensures Inv(run[i])
    decreases i
  {
    if i > 0 {
      RunInv(run, steps, i - 1);
      assert StepsTo(run[i - 1], steps[i - 1], run[i]);
      StepInv(run[i - 1], steps[i - 1]);
    }
  }

  /** Notifying a resource wakes whoever is parked on it. */
  lemma NotifyWakes(s: State, r: Rid, w: Wid, i: nat)
    requires Inv(s) && Enabled(s, Notify(r))
    requires w in s.waiters && s.waiters[w].parked && i < |s.waiters[w].wants| && s.waiters[w].wants[i].r == r
    ensures Enabled(Apply(s, Notify(r)), Wake(w))
  {
    hide Ready;
    assert WaiterOk(s, s.waiters[w]);
    assert !IsOpen(Apply(s, Notify(r)).cells[r], s.waiters[w].taken[i]);
  }

  /**
   No wakeup is lost. In every run, when something a parked waiter waits for is ready, the waiter can
   wake now, or a notification that will wake it is on its way.
   */
  lemma NoLostWakeup(run: seq<State>, steps: seq<Step>, k: nat, w: Wid, i: nat)
    requires IsRun(run, steps) && k < |run|
    requires w in run[k].waiters && run[k].waiters[w].parked && i < |run[k].waiters[w].wants|
    ensures var t := run[k].waiters[w].wants[i];
            && t.r in run[k].cells
            && (Ready(run[k].cells[t.r].res, t.want) ==>
                  || Enabled(run[k], Wake(w))
                  || (Enabled(run[k], Notify(t.r)) && Enabled(Apply(run[k], Notify(t.r)), Wake(w))))
  {
    hide Ready, IsRun;
    var s := run[k];
    RunInv(run, steps, k);
    assert WaiterOk(s, s.waiters[w]);
    var t := s.waiters[w].wants[i];
    assert TargetOk(s.cells[t.r], t.want, s.waiters[w].taken[i], i < s.waiters[w].checked);
    if s.cells[t.r].owed > 0 {
      NotifyWakes(s, t.r, w, i);
    } else if Ready(s.cells[t.r].res, t.want) {
      assert !IsOpen(s.cells[t.r], s.waiters[w].taken[i]);
    }
  }

  /** When everything has come to rest, nobody is parked on something that is ready. */
  lemma RestingWaitersAreRight(run: seq<State>, steps: seq<Step>, k: nat, w: Wid, i: nat)
    requires IsRun(run, steps) && k < |run|
    requires w in run[k].waiters && run[k].waiters[w].parked && i < |run[k].waiters[w].wants|
    requires !Enabled(run[k], Wake(w)) && forall r :: !Enabled(run[k], Notify(r))
    ensures var t := run[k].waiters[w].wants[i]; t.r in run[k].cells && !Ready(run[k].cells[t.r].res, t.want)
  {
    NoLostWakeup(run, steps, k, w, i);
  }

  /** Units of a semaphore that is never reset are neither made nor lost. */
  lemma {:induction false} UnitsKept(run: seq<State>, steps: seq<Step>, k: nat, r: Rid)
    requires IsRun(run, steps) && k < |run| && r in run[k].cells && run[k].cells[r].res.Sema?
    requires Reset(r) !in steps[..k]
    ensures var q := run[k].cells[r].res; q.locks == q.initial + q.unlocks - q.count
    ensures var q := run[k].cells[r].res; q.initial >= 0 ==> q.locks <= q.initial + q.unlocks
  {
    hide IsRun;
    RunInv(run, steps, k);
    NothingLost(run, steps, k, r);
  }

  lemma {:induction false} NothingLost(run: seq<State>, steps: seq<Step>, k: nat, r: Rid)
    requires IsRun(run, steps) && k < |run| && r in run[k].cells && run[k].cells[r].res.Sema?
    requires Reset(r) !in steps[..k]
    ensures run[k].cells[r].res.lost == 0
    decreases k
  {
    if k > 0 {
      assert steps[k - 1] in steps[..k] && steps[..k - 1] == steps[..k][..k - 1];
      assert StepsTo(run[k - 1], steps[k - 1], run[k]);
      LostOnlyByReset(run[k - 1], steps[k - 1], r);
      NothingLost(run, steps, k - 1, r);
    }
  }

  lemma LostOnlyByReset(s: State, step: Step, r: Rid)
    requires Enabled(s, step) && r in Apply(s, step).cells && Apply(s, step).cells[r].res.Sema? && step != Reset(r)
    ensures r in s.cells && s.cells[r].res.Sema? && s.cells[r].res.lost == Apply(s, step).cells[r].res.lost
  {
  }
}
