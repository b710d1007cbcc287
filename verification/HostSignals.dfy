/**
 The host side of signals: senders set bits and leave a token, and the process's blocking
 calls test the bits before they wait for the token. The atomic steps are the sections under
 sigMu, the channel operations, and the guest's own changes to its control block.
 */
module HostSignals {

  /** A 64-bit mask as the set of its bits. */
  type Mask = set<nat>

  /** abi.NSIG: kill accepts signals below it. */
  const NSIG := 65
  const SIGKILL := 9

  /** 1<<sig as a 64-bit number. */
  function Bit(sig: nat): Mask {
    if sig < 64 then {sig} else {}
  }

  /** Where the process is: running guest code, about to test for signals in block, or at its select. */
  datatype Where = Running | AtCheck | AtSelect

  /** owing counts the senders that have set their bit and not yet left the token. */
  datatype Sig = Sig(registered: bool, early: Mask, pending: Mask, blocked: Mask, ignored: Mask,
                     token: bool, owing: nat, killed: bool, at: Where)

  datatype Step =
    | Send(sig: nat)
    | PutToken
    | Register
    | Stop
    | GuestMasks(blocked: Mask, ignored: Mask)
    | GuestTakes(sig: nat)
    | EnterBlock
    | Check
    | SelectToken
    | SelectKilled
    | SelectOther

  predicate Interrupted(s: Sig) {
    if s.registered then s.pending - s.blocked - s.ignored != {} else s.early != {}
  }

  predicate Enabled(s: Sig, step: Step) {
    match step
    case Send(sig) => 0 < sig < NSIG
    case PutToken => s.owing > 0
    case Register => s.at == Running
    case Stop => s.at == Running
    case GuestMasks(_, _) => s.at == Running
    case GuestTakes(sig) => s.at == Running && s.registered && sig in s.pending
    case EnterBlock => s.at == Running
    case Check => s.at == AtCheck
    case SelectToken => s.at == AtSelect && s.token
    case SelectKilled => s.at == AtSelect && s.killed
    case SelectOther => s.at == AtSelect
  }

  function Apply(s: Sig, step: Step): Sig
    requires Enabled(s, step)
  {
    match step
    case Send(sig) =>
      if sig == SIGKILL then s.(killed := true)
      else if s.registered then s.(owing := s.owing + 1, pending := s.pending + Bit(sig))
      else s.(owing := s.owing + 1, early := s.early + Bit(sig))
    case PutToken => s.(owing := s.owing - 1, token := true)
    case Register => s.(registered := true, pending := s.pending + s.early, early := {})
    case Stop => s.(registered := false)
    case GuestMasks(b, i) => s.(blocked := b, ignored := i)
    case GuestTakes(sig) => s.(pending := s.pending - {sig})
    case EnterBlock => s.(at := AtCheck)
    case Check => s.(at := if s.killed || Interrupted(s) then Running else AtSelect)
    case SelectToken => s.(token := false, at := AtCheck)
    case SelectKilled => s.(at := Running)
    case SelectOther => s.(at := Running)
  }

  /** No signal misses a process at its select. */
  predicate Inv(s: Sig) {
    && (s.at == AtSelect && Interrupted(s) ==> s.token || s.owing > 0)
    && (s.registered ==> s.early == {})
  }

  lemma StepInv(s: Sig, step: Step)
    requires Inv(s) && Enabled(s, step)
    ensures Inv(Apply(s, step))
  {
  }

  const START := Sig(false, {}, {}, {}, {}, false, 0, false, Running)

  predicate IsRun(run: seq<Sig>, steps: seq<Step>) {
    && |run| == |steps| + 1 && run[0] == START
    && forall i :: 0 <= i < |steps| ==> StepsTo(run[i], steps[i], run[i + 1])
  }

  predicate StepsTo(s: Sig, step: Step, s': Sig) {
    Enabled(s, step) && s' == Apply(s, step)
  }

  /**
   Over every interleaving: whenever the process is at its select with a signal pending that
   should interrupt it, the token is there or a sender is about to leave it.
   */
  lemma {:induction false} NoSignalMissed(run: seq<Sig>, steps: seq<Step>, i: nat)
    requires IsRun(run, steps) && i < |run|
    ensures run[i].at == AtSelect && Interrupted(run[i]) ==> run[i].token || run[i].owing > 0
    ensures Inv(run[i])
    decreases i
  {
    if i > 0 {
      NoSignalMissed(run, steps, i - 1);
      assert StepsTo(run[i - 1], steps[i - 1], run[i]);
      StepInv(run[i - 1], steps[i - 1]);
    }
  }

  /** Once the senders are done, the waiting call does return, in two steps; when killed, at once. */
  lemma WaitEnds(run: seq<Sig>, steps: seq<Step>, i: nat)
    requires IsRun(run, steps) && i < |run| && run[i].at == AtSelect
    ensures Interrupted(run[i]) && run[i].owing == 0 ==>
              Enabled(run[i], SelectToken) && Apply(Apply(run[i], SelectToken), Check).at == Running
    ensures run[i].killed ==> Enabled(run[i], SelectKilled) && Apply(run[i], SelectKilled).at == Running
  {
    NoSignalMissed(run, steps, i);
  }

  // ---- every signal sent arrives ----

  /** The accepted signals that have a bit: SIGKILL cancels the process instead, and 1<<64 is zero. */
  predicate HasBit(sig: nat) {
    0 < sig < 64 && sig != SIGKILL
  }

  /** Step j sent sig, and the guest has not taken it between j and i. */
  predicate SentAt(steps: seq<Step>, sig: nat, j: int, i: nat)
    requires i <= |steps|
  {
    0 <= j < i && steps[j] == Send(sig) && forall t :: j < t < i ==> steps[t] != GuestTakes(sig)
  }

  /** sig was sent before i and the guest has not taken it since. */
  ghost predicate Outstanding(steps: seq<Step>, sig: nat, i: nat)
    requires i <= |steps|
  {
    exists j :: SentAt(steps, sig, j, i)
  }

  lemma SentMore(steps: seq<Step>, sig: nat, i: nat)
    requires i < |steps|
    ensures Outstanding(steps, sig, i + 1) <==>
            steps[i] == Send(sig) || (steps[i] != GuestTakes(sig) && Outstanding(steps, sig, i))
  {
    if steps[i] == Send(sig) {
      assert SentAt(steps, sig, i, i + 1);
    } else if steps[i] != GuestTakes(sig) && Outstanding(steps, sig, i) {
      var j :| SentAt(steps, sig, j, i);
      assert SentAt(steps, sig, j, i + 1);
    }
    if Outstanding(steps, sig, i + 1) {
      var k := i + 1;
      var j :| SentAt(steps, sig, j, k);
      assert j == i || SentAt(steps, sig, j, i);
    }
  }

  /**
   A bit is set, before or after registration, exactly when its signal was sent and the guest has not
   taken it since, for signals that have a bit; others never have one. None is lost and none made up.
   */
  lemma {:induction false} BitsExact(run: seq<Sig>, steps: seq<Step>, i: nat, sig: nat)
    requires IsRun(run, steps) && i < |run|
    ensures sig in run[i].early + run[i].pending <==> HasBit(sig) && Outstanding(steps, sig, i)
    decreases i
  {
    if i > 0 {
      BitsExact(run, steps, i - 1, sig);
      assert StepsTo(run[i - 1], steps[i - 1], run[i]);
      NoSignalMissed(run, steps, i - 1);
      SentMore(steps, sig, i - 1);
    }
  }

  /** So what was sent before registration and not taken is pending after it. */
  lemma EarlyBitsArrive(run: seq<Sig>, steps: seq<Step>, i: nat, sig: nat)
    requires IsRun(run, steps) && i < |steps| && steps[i] == Register && HasBit(sig) && Outstanding(steps, sig, i)
    ensures sig in run[i + 1].pending
  {
    BitsExact(run, steps, i, sig);
    assert StepsTo(run[i], steps[i], run[i + 1]);
  }

  /**
   Signals interrupt a blocking call only if one of them has a bit: SIGKILL kills instead, and 64, which
   kill accepts, is never seen at all.
   */
  lemma OnlyBitsInterrupt(run: seq<Sig>, steps: seq<Step>, i: nat)
    requires IsRun(run, steps) && i < |run|
    requires forall j :: 0 <= j < i && steps[j].Send? ==> !HasBit(steps[j].sig)
    ensures !Interrupted(run[i])
    ensures run[i].killed <==> Send(SIGKILL) in steps[..i]
  {
    forall sig ensures sig !in run[i].early && sig !in run[i].pending {
      BitsExact(run, steps, i, sig);
    }
    assert run[i].early == {} && run[i].pending == {};
    KilledExactly(run, steps, i);
  }

  lemma {:induction false} KilledExactly(run: seq<Sig>, steps: seq<Step>, i: nat)
    requires IsRun(run, steps) && i < |run|
    ensures run[i].killed <==> Send(SIGKILL) in steps[..i]
    decreases i
  {
    if i > 0 {
      KilledExactly(run, steps, i - 1);
      assert StepsTo(run[i - 1], steps[i - 1], run[i]);
      assert steps[..i] == steps[..i - 1] + [steps[i - 1]];
    }
  }

  /** sig is to interrupt a blocking call: before registration any signal is. */
  predicate Disturbs(s: Sig, sig: nat) {
    if s.registered then sig in s.pending && sig !in s.blocked && sig !in s.ignored else sig in s.early
  }

  /** A blocking call goes to sleep exactly if there has been no SIGKILL and no signal is to interrupt it. */
  lemma CheckDecides(run: seq<Sig>, steps: seq<Step>, i: nat)
    requires IsRun(run, steps) && i < |steps| && steps[i] == Check
    ensures run[i + 1].at == AtSelect <==> Send(9) !in steps[..i] && forall sig :: !Disturbs(run[i], sig)
    ensures run[i + 1].at == AtSelect || run[i + 1].at == Running
  {
    KilledExactly(run, steps, i);
    assert StepsTo(run[i], steps[i], run[i + 1]);
    InterruptedExactly(run[i]);
  }

  lemma InterruptedExactly(s: Sig)
    ensures Interrupted(s) <==> exists sig :: Disturbs(s, sig)
  {
    var m := if s.registered then s.pending - s.blocked - s.ignored else s.early;
    assert forall sig :: sig in m <==> Disturbs(s, sig);
    if m != {} {
      var sig :| sig in m;
      assert Disturbs(s, sig);
    }
  }

  /** It comes back at a check that finds such a signal or a kill, or from its sleep, for a kill or another reason. */
  lemma ComesBack(run: seq<Sig>, steps: seq<Step>, i: nat)
    requires IsRun(run, steps) && i < |steps| && run[i].at != Running
    ensures run[i + 1].at == Running <==>
            || (steps[i] == Check && (Send(9) in steps[..i] || exists sig :: Disturbs(run[i], sig)))
            || (steps[i] == SelectKilled && Send(9) in steps[..i])
            || steps[i] == SelectOther
  {
    KilledExactly(run, steps, i);
    assert StepsTo(run[i], steps[i], run[i + 1]);
    InterruptedExactly(run[i]);
  }

  /** The process has a control block from its last registration on until it stops. */
  lemma {:induction false} RegisteredExactly(run: seq<Sig>, steps: seq<Step>, i: nat)
    requires IsRun(run, steps) && i < |run|
    ensures run[i].registered <==> exists j :: 0 <= j < i && steps[j] == Register && Stop !in steps[j..i]
    decreases i
  {
    if i > 0 {
      RegisteredExactly(run, steps, i - 1);
      assert StepsTo(run[i - 1], steps[i - 1], run[i]);
      forall j | 0 <= j < i ensures steps[j..i] == steps[j..i - 1] + [steps[i - 1]] {
      }
    }
  }

  /** The masks are those the guest has last set. */
  lemma {:induction false} MasksAreTheLast(run: seq<Sig>, steps: seq<Step>, j: nat, i: nat)
    requires IsRun(run, steps) && j < i < |run| && steps[j].GuestMasks?
    requires forall t :: j < t < i ==> !steps[t].GuestMasks?
    ensures run[i].blocked == steps[j].blocked && run[i].ignored == steps[j].ignored
    decreases i
  {
    assert StepsTo(run[i - 1], steps[i - 1], run[i]);
    if j < i - 1 {
      MasksAreTheLast(run, steps, j, i - 1);
    }
  }

  // ---- the process's fields ----

  /** What may happen to a process at its select. */
  datatype Arrival = Sent(sig: nat) | ChannelClosed | TimeUp

  datatype Wake = Woken | Eintr | TimedOut | Killed | Asleep

  class Signals {
    var registered: bool
    var early: Mask
    var pending: Mask
    var blocked: Mask
    var ignored: Mask
    var token: bool
    var killed: bool

    /** The signals sent and not yet taken. */
    ghost function Bits(): Mask
      reads this
    {
      early + pending
    }

    ghost predicate Valid()
      reads this
    {
      registered ==> early == {}
    }

    /** Signal. */
    method Raise(sig: nat)
      requires Valid() && 0 < sig < NSIG
      modifies `early, `pending, `token, `killed
      ensures Valid()
      ensures Bits() == if HasBit(sig) then old(Bits()) + {sig} else old(Bits())
      ensures registered ==> early == old(early)
      ensures !registered ==> pending == old(pending) && early == if HasBit(sig) then old(early) + {sig} else old(early)
      ensures killed == (old(killed) || sig == SIGKILL)
      ensures token == (old(token) || sig != SIGKILL)
    {
      if sig == SIGKILL {
        killed := true;
        return;
      }
      if registered {
        pending := pending + Bit(sig);
      } else {
        early := early + Bit(sig);
      }
      token := true;
    }

    /** registerSignals: no signal is lost, and all are where the guest looks for them. */
    method Attach()
      requires Valid()
      modifies `registered, `early, `pending
      ensures Valid() && registered && pending == Bits() == old(Bits())
    {
      registered := true;
      pending := pending + early;
      early := {};
    }

    /** A signal is pending that should interrupt a blocking call. */
    ghost predicate Disturbed()
      reads this
    {
      exists sig :: (if registered then sig in pending && sig !in blocked && sig !in ignored else sig in early)
    }

    /** interrupted. */
    method IsInterrupted() returns (r: bool)
      ensures r <==> Disturbed()
    {
      if !registered {
        return early != {};
      }
      var m := pending - blocked - ignored;
      if m != {} {
        ghost var sig :| sig in m;
        assert sig in pending && sig !in blocked && sig !in ignored;
      }
      assert forall sig :: sig in pending && sig !in blocked && sig !in ignored ==> sig in m;
      return m != {};
    }

    /** The arrival ends a wait of this process. */
    ghost predicate Ends(a: Arrival)
      reads this
    {
      a.Sent? ==> a.sig == SIGKILL || (HasBit(a.sig) && (registered ==> a.sig !in blocked && a.sig !in ignored))
    }

    /**
     block: arrivals are what happens while the process waits, one after the other. It returns at the
     first that ends the wait, for the reason it gives, and sleeps through all others; a signal that was
     there before, or a kill, ends it at once.
     */
    method Block(arrivals: seq<Arrival>) returns (r: Wake, n: nat)
      requires Valid() && forall a :: a in arrivals && a.Sent? ==> 0 < a.sig < NSIG
      modifies `early, `pending, `token, `killed
      ensures Valid() && n <= |arrivals|
      ensures old(killed) ==> r == Killed && n == 0
      ensures !old(killed) && old(Disturbed()) ==> r == Eintr && n == 0
      ensures !old(killed) && !old(Disturbed()) ==>
                && (forall i :: 0 <= i < n - 1 ==> !Ends(arrivals[i]))
                && if n > 0 && Ends(arrivals[n - 1]) then r == Reason(arrivals[n - 1])
                   else r == Asleep && n == |arrivals|
    {
      n := 0;
      while true
        invariant Valid() && n <= |arrivals|
        invariant n == 0 ==> killed == old(killed) && Disturbed() == old(Disturbed())
        invariant n > 0 ==> !old(killed) && !old(Disturbed())
        invariant forall i :: 0 <= i < n - 1 ==> !Ends(arrivals[i])
        invariant n > 0 ==> (killed <==> arrivals[n - 1] == Sent(SIGKILL))
        invariant n > 0 && !killed ==> (Disturbed() <==> Ends(arrivals[n - 1]))
        invariant n > 0 ==> arrivals[n - 1].Sent?
        decreases |arrivals| - n, token
      {
        if killed {
          return Killed, n;
        }
        var now := IsInterrupted();
        if now {
          return Eintr, n;
        }
        if token {
          token := false;
        } else if n == |arrivals| {
          return Asleep, n;
        } else {
          var a := arrivals[n];
          n := n + 1;
          match a
          case ChannelClosed => return Woken, n;
          case TimeUp => return TimedOut, n;
          case Sent(sig) => Raise(sig);
        }
      }
    }
  }

  /** Why an arrival ends a wait. */
  function Reason(a: Arrival): Wake {
    match a
    case Sent(sig) => if sig == SIGKILL then Killed else Eintr
    case ChannelClosed => Woken
    case TimeUp => TimedOut
  }
}
