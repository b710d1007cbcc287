/** What each call on a socket does, in terms of its two streams, and what stays once it has happened. */
module SocketResults {
  import opened Common
  import opened Socket

  /** A receive gives the next bytes of the stream that was received, and says how it ended once there are no more. */
  lemma RecvGives(s: State, n: nat, peek: bool)
    requires Inv(s)
    ensures var r, s' := RecvResult(s, n), AfterRecv(s, n, peek);
            var left := |s.received| - |s.delivered|;
            && left >= 0
            && (r.Bytes? <==> n == 0 || left > 0)
            && (r.Bytes? ==>
                  && |r.b| == (if n < left then n else left) && s.delivered + r.b <= s.received
                  && s'.delivered == if peek then s.delivered else s.delivered + r.b)
            && (r == EndOfFile <==> n > 0 && left == 0 && s.rend == Eof)
            && (r == Reset <==> n > 0 && left == 0 && s.rend == Broken)
            && (r == Again <==> n > 0 && left == 0 && s.rend == NoEnd)
            && (!r.Bytes? ==> s' == s)
            && s'.received == s.received && s'.accepted == s.accepted && s'.written == s.written
  {
    assert s.received == s.delivered + s.rbuf;
    if RecvResult(s, n).Bytes? {
      var b := RecvResult(s, n).b;
      assert b == s.rbuf[..|b|];
      assert s.delivered + b == s.received[..|s.delivered| + |b|];
    }
  }

  /** A send adds to the stream that is accepted as much as there is space for, and says how much. */
  lemma SendTakes(s: State, b: seq<Byte>)
    requires Inv(s)
    ensures var r, s' := SendResult(s, b), AfterSend(s, b);
            var space := 262144 - (|s.accepted| - |s.written|);
            && 0 <= space <= 262144
            && (r == Pipe <==> s.werr || s.wshut)
            && (r == Again <==> !s.werr && !s.wshut && b != [] && space == 0)
            && (r.Count? || r == Pipe || r == Again)
            && (if r.Count?
                then r.n == (if |b| < space then |b| else space) && s'.accepted == s.accepted + b[..r.n]
                else s' == s)
            && s'.written == s.written && s'.received == s.received && s'.delivered == s.delivered
  {
    assert s.accepted == s.written + s.wbuf;
    if b == [] {
      assert s.accepted + [] == s.accepted;
    }
  }

  /**
   Errors, shutdown, release and the end of input stay: each is set by the step that brings it about, and by
   no other.
   */
  lemma Sticks(s: State, step: Step)
    requires Inv(s) && Enabled(s, step)
    ensures var s' := Apply(s, step);
            && (s'.werr <==> s.werr || (step.Wrote? && step.err))
            && (s'.wshut <==> s.wshut || step == Shutdown || step == BeginRelease)
            && (Released(s') <==> Released(s) || step == BeginRelease)
            && s'.rend == if step.Got? && step.end != NoEnd then step.end else s.rend
  {
    hide OutputOk, InputOk, CloserOk, WaiterOk;
  }

  /** The streams grow only at their ends: by what a step of the pumps or of a user says. */
  lemma StreamsGrow(s: State, step: Step)
    requires Inv(s) && Enabled(s, step)
    ensures var s' := Apply(s, step);
            && s'.written == s.written + (if step.Wrote? then s.w.out[..step.n] else [])
            && s'.received == s.received + (if step.Got? then step.bytes else [])
            && s'.accepted == s.accepted +
                              (if step.Send? && SendResult(s, step.b).Count? then step.b[..SendResult(s, step.b).n]
                               else [])
            && s'.delivered == s.delivered +
                               if step.Recv? && !step.peek && RecvResult(s, step.n).Bytes? then RecvResult(s, step.n).b
                               else []
  {
    hide OutputOk, InputOk, CloserOk, WaiterOk;
    assert s.written + [] == s.written && s.received + [] == s.received;
    assert s.accepted + [] == s.accepted && s.delivered + [] == s.delivered;
  }
}
