/**
 The guest's signals: dispositions, the blocked mask, and handlers that may nest to any depth.
 A run is a sequence of small steps of the one guest thread, with signals arriving from the
 host between any two of them.
 */
module GuestSignals {
  import opened Common

  /** A 64-bit mask as the set of its bits. Signals are 1 to 63. */
  type Mask = set<nat>

  const NSIG := 64
  const SIGKILL: nat := 9
  const SIGCHLD: nat := 17
  const SIGSTOP: nat := 19
  const SIGURG: nat := 23
  const SIGWINCH: nat := 28

  const UNBLOCKABLE: Mask := {SIGKILL, SIGSTOP}
  const DEFAULT_IGNORED: Mask := {SIGCHLD, SIGURG, SIGWINCH}

  datatype Handler = Ignore | Default | Call(address: nat)
  datatype Action = Action(handler: Handler, mask: Mask, nodefer: bool, resetHand: bool)

  predicate ValidSignal(sig: int) {
    0 < sig < NSIG
  }

  /** An action that runs nothing and does not terminate. */
  predicate Ignores(a: Action, sig: nat) {
    a.handler == Ignore || (a.handler == Default && sig in DEFAULT_IGNORED)
  }

  /** The mask of the signals their actions ignore. */
  ghost function IgnoredMask(actions: seq<Action>): Mask
    requires |actions| == NSIG
  {
    set sig: nat | 1 <= sig < NSIG && Ignores(actions[sig], sig)
  }

  function Blockable(m: Mask): Mask {
    m - UNBLOCKABLE
  }

  /** What set_blocked is given while act runs for sig. */
  function HandlerMask(saved: Mask, act: Action, sig: nat): Mask {
    Blockable(saved + act.mask + if act.nodefer then {} else {sig})
  }

  // ---- the machine ----

  /**
   What the guest thread is doing, innermost last: its program; a dispatch, entered with mask
   entry, with the signal it has picked if any, whether it follows an interrupted call, and
   whether it has run a handler; a handler; a blocking host call; sigsuspend.
   */
  datatype Frame =
    | Program
    | Dispatch(entry: Mask, picked: Option<nat>, eintr: bool, ran: bool)
    | Handling(sig: nat, saved: Mask, act: Action)
    | HostCall(interrupted: bool)
    | Suspended(saved: Mask, woken: bool)

  datatype Guest = Guest(pending: Mask, blocked: Mask, ignored: Mask, actions: seq<Action>,
                         stack: seq<Frame>, dead: Option<nat>)
  {
    function Top(): Frame
      requires |stack| > 0
    {
      stack[|stack| - 1]
    }

    function Push(f: Frame): Guest {
      this.(stack := stack + [f])
    }

    function Pop(): Guest
      requires |stack| > 0
    {
      this.(stack := stack[..|stack| - 1])
    }

    function Replace(f: Frame): Guest
      requires |stack| > 0
    {
      this.(stack := stack[..|stack| - 1] + [f])
    }

    /** Program code is running: the program itself or a handler. */
    predicate Running() {
      |stack| > 0 && (Top().Program? || Top().Handling?)
    }
  }

  datatype How = Block | Unblock | SetMask

  function NewMask(cur: Mask, how: How, s: Mask): Mask {
    match how
    case Block => cur + s
    case Unblock => cur - s
    case SetMask => s
  }

  datatype Step =
    | HostSends(sig: nat)
    | Sigaction(sig: nat, act: Action)
    | Sigprocmask(how: How, mask: Mask)
    | CheckSignals
    | EnterHostCall
    | HostInterrupts
    | HostCallReturns
    | Sigsuspend(mask: Mask)
    | SuspendWakes
    | SuspendReturns
    | DispatchLoads
    | DispatchTakes
    | HandlerReturns

  /** What the host tests before it interrupts a blocking call. */
  ghost predicate Interrupting(g: Guest) {
    g.pending - g.blocked - g.ignored != {}
  }

  function Lowest(m: Mask): (sig: nat)
    requires m != {}
    ensures sig in m && forall s :: s in m ==> sig <= s
  {
    var x :| x in m;
    LowestExists(m, x);
    var sig :| sig in m && forall s :: s in m ==> sig <= s;
    sig
  }

  lemma {:induction false} LowestExists(m: Mask, x: nat)
    requires x in m
    ensures exists sig :: sig in m && forall s :: s in m ==> sig <= s
    decreases x
  {
    if y :| y in m && y < x {
      LowestExists(m, y);
    }
  }

  /** check_signals: a dispatch begins if anything is deliverable. */
  function Checked(g: Guest, eintr: bool): Guest {
    if g.pending - g.blocked == {} then g else g.Push(Dispatch(g.blocked, None, eintr, false))
  }

  /** run_handler, up to the call of the handler. */
  ghost function RunHandler(g: Guest, sig: nat): Guest
    requires |g.actions| == NSIG && ValidSignal(sig) && |g.stack| > 0 && g.Top().Dispatch?
  {
    var act := g.actions[sig];
    var top := g.Top();
    if Ignores(act, sig) then g.Replace(top.(picked := None))
    else if act.handler == Default then g.(dead := Some(sig))
    else
      var actions' := if act.resetHand then g.actions[sig := act.(handler := Default)] else g.actions;
      g.(actions := actions', ignored := if act.resetHand then IgnoredMask(actions') else g.ignored,
         blocked := HandlerMask(g.blocked, act, sig))
       .Replace(top.(picked := None, ran := true))
       .Push(Handling(sig, g.blocked, act))
  }

  /** One step, if the guest can take it. */
  ghost function Apply(g: Guest, step: Step): Option<Guest>
    requires |g.actions| == NSIG
  {
    if g.dead.Some? || |g.stack| == 0 then None
    else
      match step
      case HostSends(sig) =>
        if ValidSignal(sig) && sig != SIGKILL then Some(g.(pending := g.pending + {sig})) else None
      case Sigaction(sig, act) =>
        if !g.Running() then None
        else if !ValidSignal(sig) || sig == SIGKILL || sig == SIGSTOP then Some(g)
        else
          var actions' := g.actions[sig := act];
          var ignored' := IgnoredMask(actions');
          Some(g.(actions := actions', ignored := ignored',
                  pending := if sig in ignored' then g.pending - {sig} else g.pending))
      case Sigprocmask(how, mask) =>
        if !g.Running() then None
        else Some(Checked(g.(blocked := Blockable(NewMask(g.blocked, how, mask))), false))
      case CheckSignals =>
        if g.Running() then Some(Checked(g, false)) else None
      case EnterHostCall =>
        if g.Running() then Some(g.Push(HostCall(false))) else None
      case HostInterrupts =>
        if g.Top().HostCall? && Interrupting(g) then Some(g.Replace(HostCall(true))) else None
      case HostCallReturns =>
        if g.Top().HostCall? then Some(Checked(g.Pop(), g.Top().interrupted)) else None
      case Sigsuspend(mask) =>
        if g.Running() then Some(g.(blocked := Blockable(mask)).Push(Suspended(g.blocked, false))) else None
      case SuspendWakes =>
        if g.Top().Suspended? && !g.Top().woken && Interrupting(g)
        then Some(g.Replace(g.Top().(woken := true)).Push(Dispatch(g.blocked, None, true, false))) else None
      case SuspendReturns =>
        if g.Top().Suspended? && g.Top().woken then Some(g.(blocked := Blockable(g.Top().saved)).Pop()) else None
      case DispatchLoads =>
        if !g.Top().Dispatch? || g.Top().picked.Some? then None
        else if g.pending - g.blocked == {} then Some(g.Pop())
        else Some(g.Replace(g.Top().(picked := Some(Lowest(g.pending - g.blocked)))))
      case DispatchTakes =>
        if g.Top().Dispatch? && g.Top().picked.Some? && ValidSignal(g.Top().picked.value)
        then Some(RunHandler(g.(pending := g.pending - {g.Top().picked.value}), g.Top().picked.value)) else None
      case HandlerReturns =>
        if g.Top().Handling? then Some(g.(blocked := Blockable(g.Top().saved)).Pop()) else None
  }

  // ---- what every step keeps ----

  /** f may sit directly on below. */
  ghost predicate Sits(below: Frame, f: Frame) {
    match f
    case Program => false
    case Dispatch(_, _, _, _) => below.Program? || below.Handling? || (below.Suspended? && below.woken)
    case Handling(sig, saved, act) =>
      below.Dispatch? && below.ran && below.picked.None? && saved == below.entry && sig !in saved
    case HostCall(_) => below.Program? || below.Handling?
    case Suspended(_, _) => below.Program? || below.Handling?
  }

  ghost predicate StackOk(stack: seq<Frame>) {
    && |stack| > 0 && stack[0] == Program
    && (forall k :: 0 < k < |stack| ==> Sits(stack[k - 1], stack[k]))
    && (forall k :: 0 <= k < |stack| ==> FrameOk(stack[k]))
  }

  /** No mask that will be restored holds SIGKILL or SIGSTOP. */
  ghost predicate FrameOk(f: Frame) {
    match f
    case Dispatch(entry, _, _, _) => entry !! UNBLOCKABLE
    case Handling(_, saved, _) => saved !! UNBLOCKABLE
    case Suspended(saved, _) => saved !! UNBLOCKABLE
    case _ => true
  }

  /** What the innermost frame says of the masks. */
  ghost predicate TopOk(g: Guest)
    requires |g.stack| > 0
  {
    match g.Top()
    case Dispatch(entry, picked, eintr, ran) =>
      && g.blocked == entry
      && (picked.Some? ==> picked.value in g.pending - g.blocked)
      && (eintr && !ran ==> Interrupting(g))
    case HostCall(interrupted) => interrupted ==> Interrupting(g)
    case _ => true
  }

  ghost predicate Inv(g: Guest) {
    && |g.actions| == NSIG && g.ignored == IgnoredMask(g.actions)
    && g.blocked !! UNBLOCKABLE
    && (forall s :: s in g.pending ==> ValidSignal(s))
    && g.actions[SIGKILL].handler == Default && g.actions[SIGSTOP].handler == Default
    && StackOk(g.stack)
    && (g.dead.None? ==> TopOk(g))
  }

  lemma PushOk(stack: seq<Frame>, f: Frame)
    requires StackOk(stack) && Sits(stack[|stack| - 1], f) && FrameOk(f)
    ensures StackOk(stack + [f])
  {
  }

  lemma PopOk(stack: seq<Frame>)
    requires StackOk(stack) && |stack| > 1
    ensures StackOk(stack[..|stack| - 1])
  {
  }

  /** The top frame may change as long as what it sits on does not mind. */
  lemma ReplaceOk(stack: seq<Frame>, f: Frame)
    requires StackOk(stack) && |stack| > 1 && Sits(stack[|stack| - 2], f) && FrameOk(f)
    ensures StackOk(stack[..|stack| - 1] + [f])
  {
    PopOk(stack);
    PushOk(stack[..|stack| - 1], f);
  }

  lemma CheckedInv(g: Guest, eintr: bool)
    requires Inv(g) && g.Running() && (eintr ==> Interrupting(g))
    ensures Inv(Checked(g, eintr))
  {
    if g.pending - g.blocked != {} {
      PushOk(g.stack, Dispatch(g.blocked, None, eintr, false));
    }
  }

  lemma RunHandlerInv(g: Guest, sig: nat)
    requires Inv(g) && g.dead.None? && g.Top().Dispatch? && g.Top().picked == Some(sig)
    ensures ValidSignal(sig) && Inv(RunHandler(g.(pending := g.pending - {sig}), sig))
  {
    var act, top := g.actions[sig], g.Top();
    ReplaceOk(g.stack, top.(picked := None));
    ReplaceOk(g.stack, top.(picked := None, ran := true));
    var g1 := g.(pending := g.pending - {sig});
    if Ignores(act, sig) {
      assert sig in g.ignored;
      assert g1.pending - g1.blocked - g1.ignored == g.pending - g.blocked - g.ignored;
    } else if act.handler != Default {
      var stack' := g.stack[..|g.stack| - 1] + [top.(picked := None, ran := true)];
      PushOk(stack', Handling(sig, g.blocked, act));
    }
  }

  lemma SigactionInv(g: Guest, sig: nat, act: Action)
    requires Inv(g) && g.dead.None? && g.Running()
    ensures Inv(Apply(g, Sigaction(sig, act)).value)
  {
  }

  lemma SuspendWakesInv(g: Guest)
    requires Inv(g) && Apply(g, SuspendWakes).Some?
    ensures Inv(Apply(g, SuspendWakes).value)
  {
    ReplaceOk(g.stack, g.Top().(woken := true));
    PushOk(g.Replace(g.Top().(woken := true)).stack, Dispatch(g.blocked, None, true, false));
  }

  lemma DispatchLoadsInv(g: Guest)
    requires Inv(g) && Apply(g, DispatchLoads).Some?
    ensures Inv(Apply(g, DispatchLoads).value)
  {
    if g.pending - g.blocked == {} {
      PopOk(g.stack);
    } else {
      ReplaceOk(g.stack, g.Top().(picked := Some(Lowest(g.pending - g.blocked))));
    }
  }

  /** Every step keeps the invariant. */
  lemma StepInv(g: Guest, step: Step)
    requires Inv(g) && Apply(g, step).Some?
    ensures Inv(Apply(g, step).value)
  {
    match step
    case HostSends(sig) =>
      assert g.pending - g.blocked - g.ignored <= g.pending + {sig} - g.blocked - g.ignored;
    case Sigaction(sig, act) => SigactionInv(g, sig, act);
    case Sigprocmask(how, mask) =>
      CheckedInv(g.(blocked := Blockable(NewMask(g.blocked, how, mask))), false);
    case CheckSignals => CheckedInv(g, false);
    case EnterHostCall => PushOk(g.stack, HostCall(false));
    case HostInterrupts => ReplaceOk(g.stack, HostCall(true));
    case HostCallReturns =>
      PopOk(g.stack);
      CheckedInv(g.Pop(), g.Top().interrupted);
    case Sigsuspend(mask) => PushOk(g.stack, Suspended(g.blocked, false));
    case SuspendWakes => SuspendWakesInv(g);
    case SuspendReturns => PopOk(g.stack);
    case DispatchLoads => DispatchLoadsInv(g);
    case DispatchTakes => RunHandlerInv(g, g.Top().picked.value);
    case HandlerReturns => PopOk(g.stack);
  }

  // ---- runs ----

  ghost predicate Initial(g: Guest) {
    && |g.actions| == NSIG && (forall sig :: 0 <= sig < NSIG ==> g.actions[sig].handler == Default)
    && g.pending == {} && g.blocked == {} && g.ignored == IgnoredMask(g.actions)
    && g.stack == [Program] && g.dead == None
  }

  ghost predicate IsRun(run: seq<Guest>, steps: seq<Step>) {
    && |run| == |steps| + 1 && Initial(run[0])
    && forall i :: 0 <= i < |steps| ==> StepsTo(run[i], steps[i], run[i + 1])
  }

  ghost predicate StepsTo(g: Guest, step: Step, g': Guest) {
    |g.actions| == NSIG && Apply(g, step) == Some(g')
  }

  /** Every state of every run satisfies the invariant. */
  lemma {:induction false} RunInv(run: seq<Guest>, steps: seq<Step>, i: nat)
    requires IsRun(run, steps) && i < |run|
    ensures Inv(run[i])
    decreases i
  {
    if i > 0 {
      RunInv(run, steps, i - 1);
      assert StepsTo(run[i - 1], steps[i - 1], run[i]);
      StepInv(run[i - 1], steps[i - 1]);
    }
  }

  /** The ignored mask the host consults is always the one the actions imply, and nothing unblockable is blocked. */
  lemma MasksAgree(run: seq<Guest>, steps: seq<Step>, i: nat)
    requires IsRun(run, steps) && i < |run|
    ensures |run[i].actions| == NSIG
    ensures forall sig: nat :: sig in run[i].ignored <==> 1 <= sig < NSIG && Ignores(run[i].actions[sig], sig)
    ensures SIGKILL !in run[i].blocked && SIGSTOP !in run[i].blocked
  {
    RunInv(run, steps, i);
  }

  /**
   A handler is started only for a signal that is pending and not blocked, and runs with its own
   signal (unless it asked otherwise) and its mask blocked on top of what was.
   */
  lemma HandlerStarts(g: Guest, step: Step)
    requires Inv(g) && Apply(g, step).Some?
    requires var g' := Apply(g, step).value; |g'.stack| > |g.stack| && g'.Top().Handling?
    ensures var g' := Apply(g, step).value;
            var sig, act := g'.Top().sig, g'.Top().act;
            && sig in g.pending && sig !in g.blocked && sig !in g'.pending
            && act == g.actions[sig] && act.handler.Call?
            && g.blocked <= g'.blocked && act.mask - UNBLOCKABLE <= g'.blocked
            && (!act.nodefer ==> sig in g'.blocked)
            && g'.blocked <= g.blocked + act.mask + {sig}
  {
    assert step == DispatchTakes;
  }

  /** Frames below the top stay, and a dispatch below or at the top goes on as it was. */
  lemma FramesStay(g: Guest, step: Step, n: nat)
    requires Inv(g) && Apply(g, step).Some?
    requires n < |g.stack| && n < |Apply(g, step).value.stack|
    ensures var g' := Apply(g, step).value;
            && g'.stack[..n] == g.stack[..n]
            && (g.stack[n].Dispatch? ==>
                  && g'.stack[n].Dispatch?
                  && g'.stack[n].entry == g.stack[n].entry && g'.stack[n].eintr == g.stack[n].eintr
                  && (g.stack[n].ran ==> g'.stack[n].ran)
                  && (g'.stack[n].ran && !g.stack[n].ran ==> |g'.stack| == n + 2 && g'.stack[n + 1].Handling?))
            && (g.stack[n].Suspended? ==> g'.stack[n].Suspended? && g'.stack[n].saved == g.stack[n].saved)
  {
  }

  /** A dispatch at depth n under way from a to b. */
  ghost predicate Dispatching(run: seq<Guest>, a: nat, b: nat, n: nat) {
    && a < b < |run| && |run[a].stack| == n + 1 && run[a].stack[n].Dispatch? && !run[a].stack[n].ran
    && forall c :: a <= c < b ==> |run[c].stack| > n
  }

  lemma {:induction false} DispatchGoesOn(run: seq<Guest>, steps: seq<Step>, a: nat, b: nat, n: nat, c: nat)
    requires IsRun(run, steps) && Dispatching(run, a, b, n) && a <= c < b
    ensures run[c].stack[..n] == run[a].stack[..n]
    ensures var f := run[c].stack[n];
            f.Dispatch? && f.entry == run[a].stack[n].entry && f.eintr == run[a].stack[n].eintr
    ensures run[c].stack[n].ran ==>
              exists d :: a < d <= c && |run[d].stack| == n + 2 && run[d].stack[n + 1].Handling?
    decreases c
  {
    if c > a {
      DispatchGoesOn(run, steps, a, b, n, c - 1);
      RunInv(run, steps, c - 1);
      assert StepsTo(run[c - 1], steps[c - 1], run[c]);
      FramesStay(run[c - 1], steps[c - 1], n);
    }
  }

  /**
   A dispatch that returns, through any nesting of handlers: the mask and the frames below are
   exactly as it found them, nothing deliverable is pending, and if it followed an interrupted
   call at least one handler ran.
   */
  lemma DispatchIsTransparent(run: seq<Guest>, steps: seq<Step>, a: nat, b: nat, n: nat)
    requires IsRun(run, steps) && Dispatching(run, a, b, n) && |run[b].stack| == n
    ensures run[b].blocked == run[a].blocked && run[b].stack == run[a].stack[..n]
    ensures run[b].pending - run[b].blocked == {}
    ensures run[a].stack[n].eintr ==>
              exists d :: a < d < b && |run[d].stack| == n + 2 && run[d].stack[n + 1].Handling?
  {
    RunInv(run, steps, a);
    RunInv(run, steps, b - 1);
    assert StepsTo(run[a], steps[a], run[a + 1]) && StepsTo(run[b - 1], steps[b - 1], run[b]);
    assert run[a].dead.None? && run[a].Top() == run[a].stack[n];
    assert TopOk(run[a]);
    DispatchGoesOn(run, steps, a, b, n, b - 1);
    DispatchReturns(run[b - 1], steps[b - 1], n);
  }

  lemma DispatchReturns(g: Guest, step: Step, n: nat)
    requires Inv(g) && Apply(g, step).Some? && n < |g.stack| && |Apply(g, step).value.stack| == n
    requires g.stack[n].Dispatch?
    ensures var g' := Apply(g, step).value;
            && |g.stack| == n + 1 && g'.blocked == g.blocked == g.stack[n].entry && g'.pending == g.pending
            && g'.stack == g.stack[..n] && g.pending - g.blocked == {}
            && (g.stack[n].eintr ==> g.stack[n].ran)
  {
    assert step == DispatchLoads;
    assert g.pending - g.blocked == {};
  }

  /** A blocking call that was interrupted and returns begins such a dispatch, whatever arrived meanwhile. */
  lemma InterruptedCallDispatches(g: Guest)
    requires Inv(g) && g.dead.None? && g.Top() == HostCall(true)
    ensures var g' := Apply(g, HostCallReturns);
            g'.Some? && g'.value.stack == g.stack[..|g.stack| - 1] + [Dispatch(g.blocked, None, true, false)]
  {
    assert g.pending - g.blocked != {};
  }

  /** So an interrupted blocking call, once it is back in the program, has run at least one handler. */
  lemma InterruptedCallRunsHandler(run: seq<Guest>, steps: seq<Step>, a: nat, b: nat, n: nat)
    requires IsRun(run, steps) && a + 1 < b < |run| && |run[a].stack| == n + 1
    requires run[a].Top() == HostCall(true) && steps[a] == HostCallReturns
    requires |run[b].stack| == n && forall c :: a < c < b ==> |run[c].stack| > n
    ensures exists d :: a < d < b && |run[d].stack| == n + 2 && run[d].stack[n + 1].Handling?
    ensures run[b].blocked == run[a].blocked
  {
    RunInv(run, steps, a);
    assert StepsTo(run[a], steps[a], run[a + 1]);
    InterruptedCallDispatches(run[a]);
    assert run[a + 1].stack[n] == Dispatch(run[a].blocked, None, true, false);
    DispatchIsTransparent(run, steps, a + 1, b, n);
  }

  /** A sigsuspend entered at a that returns at b leaves the mask it found, whatever it waited with. */
  lemma {:induction false} SuspendIsTransparent(run: seq<Guest>, steps: seq<Step>, a: nat, b: nat, n: nat)
    requires IsRun(run, steps) && a < b < |run|
    requires |run[a].stack| == n + 1 && run[a].stack[n].Suspended? && |run[b].stack| == n
    requires forall c :: a <= c < b ==> |run[c].stack| > n
    ensures run[b].blocked == run[a].stack[n].saved && run[b].stack == run[a].stack[..n]
  {
    SuspendGoesOn(run, steps, a, b, n, b - 1);
    RunInv(run, steps, b - 1);
    assert StepsTo(run[b - 1], steps[b - 1], run[b]);
    SuspendReturn(run[b - 1], steps[b - 1], n);
  }

  lemma SuspendReturn(g: Guest, step: Step, n: nat)
    requires Inv(g) && Apply(g, step).Some? && n < |g.stack| && |Apply(g, step).value.stack| == n
    requires g.stack[n].Suspended?
    ensures var g' := Apply(g, step).value; g'.blocked == g.stack[n].saved && g'.stack == g.stack[..n]
  {
    assert step == SuspendReturns;
    assert FrameOk(g.stack[n]);
  }

  lemma {:induction false} SuspendGoesOn(run: seq<Guest>, steps: seq<Step>, a: nat, b: nat, n: nat, c: nat)
    requires IsRun(run, steps) && a <= c < b < |run|
    requires |run[a].stack| == n + 1 && run[a].stack[n].Suspended?
    requires forall c :: a <= c < b ==> |run[c].stack| > n
    ensures run[c].stack[..n] == run[a].stack[..n]
    ensures run[c].stack[n].Suspended? && run[c].stack[n].saved == run[a].stack[n].saved
    decreases c
  {
    hide Apply, Inv;
    if c > a {
      SuspendGoesOn(run, steps, a, b, n, c - 1);
      RunInv(run, steps, c - 1);
      assert StepsTo(run[c - 1], steps[c - 1], run[c]);
      FramesStay(run[c - 1], steps[c - 1], n);
    }
  }

  // ---- the control block ----

  /** The control block and the table of actions, as the functions of signal.c update them. */
  class SigBlock {
    var pending: Mask
    var blocked: Mask
    var ignored: Mask
    const actions: array<Action>

    ghost predicate Valid() {
      actions.Length == NSIG
    }

    /** The machine's guest with these masks and actions, and the given frames. */
    ghost function View(stack: seq<Frame>): Guest
      reads this, actions
      requires Valid()
    {
      Guest(pending, blocked, ignored, actions[..], stack, None)
    }

    constructor ()
      ensures Valid() && fresh(actions) && Initial(View([Program]))
    {
      pending, blocked, ignored := {}, {}, {};
      actions := new Action[NSIG](_ => Action(Default, {}, false, false));
      new;
      UpdateIgnored();
    }

    method UpdateIgnored()
      requires Valid()
      modifies this`ignored
      ensures ignored == IgnoredMask(actions[..])
    {
      var ign: Mask := {};
      var sig: nat := 1;
      while sig < NSIG
        invariant 1 <= sig <= NSIG
        invariant ign == set s: nat | 1 <= s < sig && Ignores(actions[s], s)
      {
        if Ignores(actions[sig], sig) {
          ign := ign + {sig};
        }
        sig := sig + 1;
      }
      ignored := ign;
    }

    method SetBlocked(mask: Mask)
      modifies this`blocked
      ensures blocked == Blockable(mask)
    {
      blocked := mask - {SIGKILL, SIGSTOP};
    }

    /** sigprocmask, up to the check for signals: an unknown way to change the mask is an error. */
    method ChangeMask(how: Option<How>, mask: Option<Mask>) returns (ok: bool, was: Mask)
      modifies this`blocked
      ensures was == old(blocked) && (ok <==> mask.None? || how.Some?)
      ensures blocked == if ok && mask.Some? then Blockable(NewMask(was, how.value, mask.value)) else was
    {
      was, ok := blocked, true;
      if mask.Some? {
        match how
        case Some(Block) => SetBlocked(was + mask.value);
        case Some(Unblock) => SetBlocked(was - mask.value);
        case Some(SetMask) => SetBlocked(mask.value);
        case None => ok := false;
      }
    }

    /** sigaction: the step of the machine for a new action, and -1 without effect for a signal that has none. */
    method SetAction(sig: nat, act: Option<Action>, ghost stack: seq<Frame>) returns (ok: bool, was: Option<Action>)
      requires Valid() && View(stack).Running()
      modifies this, actions
      ensures ok <==> ValidSignal(sig) && (act.Some? ==> sig != SIGKILL && sig != SIGSTOP)
      ensures was == if ok then Some(old(actions[sig])) else None
      ensures act.Some? ==> Some(View(stack)) == Apply(old(View(stack)), Sigaction(sig, act.value))
      ensures act.None? ==> View(stack) == old(View(stack))
    {
      if !(0 < sig < NSIG) || (act.Some? && (sig == SIGKILL || sig == SIGSTOP)) {
        return false, None;
      }
      was := Some(actions[sig]);
      if act.Some? {
        actions[sig] := act.value;
        UpdateIgnored();
        if sig in ignored {
          pending := pending - {sig};
        }
      }
      return true, was;
    }

    /** run_handler: what is to be called, if anything; the default action ends the process. */
    method StartHandler(sig: nat, ghost stack: seq<Frame>) returns (call: Option<Action>, saved: Mask, exits: bool)
      requires Valid() && ValidSignal(sig) && ignored == IgnoredMask(actions[..])
      requires |stack| > 0 && stack[|stack| - 1].Dispatch?
      modifies this, actions
      ensures saved == old(blocked)
      ensures var g := RunHandler(old(View(stack)), sig);
              && exits == (g.dead == Some(sig))
              && call == (if |g.stack| > |stack| then Some(old(actions[sig])) else None)
              && View(g.stack) == g.(dead := None)
    {
      var act := actions[sig];
      saved := blocked;
      if act.handler == Ignore {
        return None, saved, false;
      }
      if act.handler == Default {
        return None, saved, sig !in DEFAULT_IGNORED;
      }
      if act.resetHand {
        actions[sig] := act.(handler := Default);
        UpdateIgnored();
      }
      SetBlocked(saved + act.mask + if act.nodefer then {} else {sig});
      return Some(act), saved, false;
    }
  }
}
