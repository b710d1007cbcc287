/** What each call does to the guest's signals, stated by its effect, and that no signal is lost between. */
module SignalResults {
  import opened Common
  import opened GuestSignals

  /** Blocking adds the set, unblocking takes it away, setting replaces the mask; 9 and 19 are never blocked. */
  lemma MaskResult(g: Guest, how: How, s: Mask, sig: nat)
    requires |g.actions| == NSIG && g.dead.None? && g.Running()
    ensures var r := Apply(g, Sigprocmask(how, s));
            && r.Some? && r.value.pending == g.pending && r.value.actions == g.actions && r.value.ignored == g.ignored
            && (sig in r.value.blocked <==>
                  && sig != 9 && sig != 19
                  && match how
                     case Block => sig in g.blocked || sig in s
                     case Unblock => sig in g.blocked && sig !in s
                     case SetMask => sig in s)
  {
  }

  /** What the new mask lets through is dispatched before the call returns. */
  lemma MaskDispatches(g: Guest, how: How, s: Mask)
    requires |g.actions| == NSIG && g.dead.None? && g.Running()
    ensures var g' := Apply(g, Sigprocmask(how, s)).value;
            if exists sig :: sig in g.pending && sig !in g'.blocked
            then g'.stack == g.stack + [Dispatch(g'.blocked, None, false, false)]
            else g'.stack == g.stack
  {
    var b := Blockable(NewMask(g.blocked, how, s));
    if sig :| sig in g.pending && sig !in b {
      assert sig in g.pending - b;
    } else {
      assert g.pending - b == {};
    }
  }

  /** Runs nothing and does not terminate: SIGCHLD, SIGURG and SIGWINCH are ignored by default. */
  predicate Harmless(h: Handler, sig: nat) {
    h.Ignore? || (h.Default? && (sig == 17 || sig == 23 || sig == 28))
  }

  /** A new action takes effect for its signal alone, and discards it if it is pending and now ignored. */
  lemma ActionResult(g: Guest, sig: nat, act: Action, x: nat)
    requires Inv(g) && g.dead.None? && g.Running()
    ensures var r := Apply(g, Sigaction(sig, act));
            var valid := 0 < sig < 64 && sig != 9 && sig != 19;
            && r.Some? && r.value.blocked == g.blocked && r.value.stack == g.stack && r.value.dead == None
            && (!valid ==> r.value == g)
            && (valid ==> r.value.actions == g.actions[sig := act])
            && (x in r.value.pending <==> x in g.pending && !(valid && x == sig && Harmless(act.handler, sig)))
            && (x in r.value.ignored <==> 0 < x < 64 && Harmless(r.value.actions[x].handler, x))
  {
  }

  /** A dispatch picks the lowest signal that is pending and not blocked, and returns when there is none. */
  lemma PickResult(g: Guest)
    requires Inv(g) && g.dead.None? && g.Top().Dispatch? && g.Top().picked.None?
    ensures var r := Apply(g, DispatchLoads);
            && r.Some? && r.value.pending == g.pending && r.value.blocked == g.blocked && r.value.actions == g.actions
            && (if |r.value.stack| < |g.stack|
                then r.value.stack == g.stack[..|g.stack| - 1] && forall s :: s in g.pending ==> s in g.blocked
                else
                  && |r.value.stack| == |g.stack| && r.value.Top().Dispatch? && r.value.Top().picked.Some?
                  && var sig := r.value.Top().picked.value;
                     && sig in g.pending && sig !in g.blocked
                     && forall s :: s in g.pending && s !in g.blocked ==> sig <= s)
  {
    if g.pending - g.blocked == {} {
      forall s | s in g.pending ensures s in g.blocked {
        assert s !in g.pending - g.blocked;
      }
    } else {
      var sig := Lowest(g.pending - g.blocked);
      forall s | s in g.pending && s !in g.blocked ensures sig <= s {
        assert s in g.pending - g.blocked;
      }
    }
  }

  /** sigsuspend waits with the mask it is given, and keeps the one it found. */
  lemma SuspendResult(g: Guest, mask: Mask, sig: nat)
    requires |g.actions| == NSIG && g.dead.None? && g.Running()
    ensures var r := Apply(g, Sigsuspend(mask));
            && r.Some? && r.value.stack == g.stack + [Suspended(g.blocked, false)]
            && (sig in r.value.blocked <==> sig in mask && sig != 9 && sig != 19)
            && r.value.pending == g.pending && r.value.actions == g.actions
  {
  }

  /** What is blocked while a handler runs. */
  ghost predicate BlocksWhile(blocked: Mask, was: Mask, act: Action, sig: nat) {
    forall x :: x in blocked <==>
      x != 9 && x != 19 && (x in was || x in act.mask || (x == sig && !act.nodefer))
  }

  /** The picked signal is taken: nothing happens if it is ignored; it ends the process; or its handler is called. */
  lemma TakeResult(g: Guest)
    requires Inv(g) && g.dead.None? && g.Top().Dispatch? && g.Top().picked.Some?
    ensures var r := Apply(g, DispatchTakes);
            var sig := g.Top().picked.value;
            && r.Some? && r.value.pending == g.pending - {sig} && 0 < sig < 64
            && var act := g.actions[sig];
               if Harmless(act.handler, sig)
               then r.value.dead == None && r.value.blocked == g.blocked && |r.value.stack| == |g.stack|
                    && r.value.actions == g.actions
               else if act.handler.Default? then r.value.dead == Some(sig)
               else
                 && r.value.dead == None && |r.value.stack| == |g.stack| + 1
                 && r.value.Top() == Handling(sig, g.blocked, act) && BlocksWhile(r.value.blocked, g.blocked, act, sig)
                 && r.value.actions ==
                    if act.resetHand then g.actions[sig := act.(handler := Default)] else g.actions
  {
  }

  // ---- no signal is lost ----

  /** The step takes sig out of the pending mask: it is delivered, or discarded by an action that ignores it. */
  ghost predicate Consumes(g: Guest, step: Step, sig: nat) {
    || (step == DispatchTakes && |g.stack| > 0 && g.Top().Dispatch? && g.Top().picked == Some(sig) && sig !in g.blocked)
    || (step.Sigaction? && step.sig == sig && 0 < sig < 64 && sig != 9 && sig != 19 && Harmless(step.act.handler, sig))
  }

  /** A signal becomes pending by being sent, and stops being so by being delivered or discarded. */
  lemma PendingChanges(g: Guest, step: Step, sig: nat)
    requires Inv(g) && Apply(g, step).Some?
    ensures var g' := Apply(g, step).value;
            && (sig in g'.pending && sig !in g.pending ==> step == HostSends(sig))
            && (sig in g.pending && sig !in g'.pending ==> Consumes(g, step, sig))
            && (step == HostSends(sig) ==> sig in g'.pending && 0 < sig < 64 && sig != 9)
  {
  }

  /** In every run, a signal that was sent is still pending unless it has been delivered or discarded since. */
  lemma {:induction false} NotLost(run: seq<Guest>, steps: seq<Step>, a: nat, b: nat, sig: nat)
    requires IsRun(run, steps) && a < b < |run| && steps[a] == HostSends(sig)
    ensures sig in run[b].pending || exists c :: a < c < b && Consumes(run[c], steps[c], sig)
    decreases b
  {
    hide Apply, Inv, Consumes;
    RunInv(run, steps, b - 1);
    assert StepsTo(run[b - 1], steps[b - 1], run[b]);
    PendingChanges(run[b - 1], steps[b - 1], sig);
    if a < b - 1 {
      NotLost(run, steps, a, b - 1, sig);
    }
  }

  /** And a signal is delivered only if it was sent since it was last delivered or discarded. */
  lemma {:induction false} NotInvented(run: seq<Guest>, steps: seq<Step>, b: nat, sig: nat)
    requires IsRun(run, steps) && b < |run| && sig in run[b].pending
    ensures exists a :: 0 <= a < b && steps[a] == HostSends(sig)
                        && forall c :: a < c < b ==> !Consumes(run[c], steps[c], sig)
    decreases b
  {
    hide Apply, Inv, Consumes;
    if b > 0 {
      RunInv(run, steps, b - 1);
      assert StepsTo(run[b - 1], steps[b - 1], run[b]);
      PendingChanges(run[b - 1], steps[b - 1], sig);
      if steps[b - 1] != HostSends(sig) {
        assert !Consumes(run[b - 1], steps[b - 1], sig) by {
          if Consumes(run[b - 1], steps[b - 1], sig) {
            ConsumedGone(run[b - 1], steps[b - 1], sig);
          }
        }
        NotInvented(run, steps, b - 1, sig);
      }
    }
  }

  lemma ConsumedGone(g: Guest, step: Step, sig: nat)
    requires Inv(g) && Apply(g, step).Some? && Consumes(g, step, sig)
    ensures sig !in Apply(g, step).value.pending
  {
  }
}
