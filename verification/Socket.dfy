/**
 A connected stream socket: the two pumps, the calls of its users and its release, as steps that
 interleave. A step is a section under the socket's lock, or what a pump does between two of them.
 The connection is a source and a sink of bytes that may stop short or fail.
 */
module Socket {
  import opened Common

  type Byte = bv8
  type Wid = nat

  const READ_AHEAD: nat := 262144
  const WRITE_BUF: nat := 262144
  /** What one read from the connection can bring. */
  const CHUNK: nat := 65536

  /**
   Parked pumps wait on a condition variable, signalled or not. Ending(closer) is past the loop, with the
   connection still to be closed.
   */
  datatype WriteLoop =
    | WTop | WParked(signalled: bool) | Writing(out: seq<Byte>) | Ending(closer: bool) | Ended(closer: bool)

  /** Notifying(stop) is past the lock, with the notification still to come. */
  datatype ReadLoop = Reading | RParked(signalled: bool) | Notifying(stop: bool) | Stopped

  /** Releasing(closer) is past the lock, with the connection still to be closed if closer. */
  datatype Release = Held | Releasing(closer: bool) | Gone(closer: bool)

  datatype ReadEnd = NoEnd | Eof | Broken

  datatype Want = Data | Space

  datatype Waiter = Waiter(want: Want, taken: Option<nat>, checked: bool)

  /**
   accepted and written, received and delivered are the whole streams; closes counts how often the connection
   was closed.
   */
  datatype State = State(
    chunk: nat,
    wbuf: seq<Byte>, wshut: bool, werr: bool, w: WriteLoop, accepted: seq<Byte>, written: seq<Byte>,
    rbuf: seq<Byte>, rend: ReadEnd, r: ReadLoop, received: seq<Byte>, delivered: seq<Byte>,
    release: Release, closes: nat,
    cur: Option<nat>, made: nat, waiters: map<Wid, Waiter>)

  datatype Step =
    | WriteCheck | Wrote(n: nat, err: bool) | EndWrite
    | Got(bytes: seq<Byte>, end: ReadEnd) | ReadCheck | ReadNotify
    | Send(b: seq<Byte>) | Recv(n: nat, peek: bool) | Shutdown | BeginRelease | EndRelease
    | Begin(id: Wid, want: Want) | Take(id: Wid) | Miss(id: Wid) | Leave(id: Wid)

  function Min(a: nat, b: nat): nat {
    if a < b then a else b
  }

  // ---- what users see ----

  datatype Io = Bytes(b: seq<Byte>) | Count(n: nat) | EndOfFile | Reset | Pipe | Again

  function RecvResult(s: State, n: nat): Io {
    if n == 0 then Bytes([])
    else if s.rbuf != [] then Bytes(s.rbuf[..Min(n, |s.rbuf|)])
    else match s.rend
      case Eof => EndOfFile
      case Broken => Reset
      case NoEnd => Again
  }

  function SendResult(s: State, b: seq<Byte>): Io {
    if s.werr || s.wshut then Pipe
    else if b == [] then Count(0)
    else if |s.wbuf| >= WRITE_BUF then Again
    else Count(Min(|b|, WRITE_BUF - |s.wbuf|))
  }

  /** Trying now would not be refused with EAGAIN. */
  predicate Ready(s: State, want: Want) {
    match want
    case Data => s.rbuf != [] || s.rend != NoEnd
    case Space => s.werr || s.wshut || |s.wbuf| < WRITE_BUF
  }

  predicate Released(s: State) {
    s.release != Held
  }

  // ---- steps ----

  function Signal(w: WriteLoop): WriteLoop {
    if w.WParked? then WParked(true) else w
  }

  function Signalled(r: ReadLoop): ReadLoop {
    if r.RParked? then RParked(true) else r
  }

  predicate IsOpen(s: State, g: nat) {
    s.cur == Some(g)
  }

  predicate AtCheck(s: State, id: Wid) {
    id in s.waiters && s.waiters[id].taken.Some? && !s.waiters[id].checked
  }

  predicate Enabled(s: State, step: Step) {
    match step
    case WriteCheck => s.w == WTop || s.w == WParked(true)
    case Wrote(n, err) => s.w.Writing? && n <= |s.w.out| && n <= |s.wbuf| && (n < |s.w.out| ==> err)
    case EndWrite => s.w.Ending?
    case Got(bytes, _) => s.r == Reading && |bytes| <= s.chunk
    case ReadCheck => s.r == RParked(true)
    case ReadNotify => s.r.Notifying?
    case BeginRelease => !Released(s)
    case EndRelease => s.release.Releasing?
    case Begin(id, _) => id !in s.waiters
    case Take(id) => id in s.waiters && s.waiters[id].taken.None?
    case Miss(id) => AtCheck(s, id) && !Ready(s, s.waiters[id].want)
    case Leave(id) => id in s.waiters
    case _ => true
  }

  /** The head of the write loop: park, end, or write all there is. */
  function WriteNext(s: State): WriteLoop {
    if s.wbuf == [] && !s.wshut && !s.werr then WParked(false)
    else if s.werr || s.wbuf == [] then Ending(Released(s))
    else Writing(s.wbuf)
  }

  /** After reading: hold back while there is too much, then notify. */
  function ReadNext(s: State): ReadLoop {
    if |s.rbuf| >= READ_AHEAD && s.rend == NoEnd && !Released(s) then RParked(false)
    else Notifying(s.rend != NoEnd || Released(s))
  }

  function Received(s: State, bytes: seq<Byte>, end: ReadEnd): State {
    s.(rbuf := s.rbuf + bytes, received := s.received + bytes, rend := if end == NoEnd then s.rend else end)
  }

  function AfterRecv(s: State, n: nat, peek: bool): State {
    match RecvResult(s, n)
    case Bytes(b) =>
      if peek || n == 0 then s
      else s.(rbuf := s.rbuf[|b|..], delivered := s.delivered + b, r := Signalled(s.r))
    case _ => s
  }

  function AfterSend(s: State, b: seq<Byte>): State {
    match SendResult(s, b)
    case Count(n) =>
      if b == [] then s
      else s.(wbuf := s.wbuf + b[..n], accepted := s.accepted + b[..n], w := Signal(s.w))
    case _ => s
  }

  function Apply(s: State, step: Step): State
    requires Enabled(s, step)
  {
    match step
    case WriteCheck => s.(w := WriteNext(s))
    case Wrote(n, err) =>
      s.(written := s.written + s.w.out[..n], wbuf := s.wbuf[n..], werr := s.werr || err, w := WTop, cur := None)
    case EndWrite => s.(w := Ended(s.w.closer), closes := s.closes + if s.w.closer then 1 else 0, cur := None)
    case Got(bytes, end) => var s' := Received(s, bytes, end); s'.(r := ReadNext(s'))
    case ReadCheck => s.(r := ReadNext(s))
    case ReadNotify => s.(r := if s.r.stop then Stopped else Reading, cur := None)
    case Send(b) => AfterSend(s, b)
    case Recv(n, peek) => AfterRecv(s, n, peek)
    case Shutdown => s.(wshut := true, w := Signal(s.w))
    case BeginRelease =>
      s.(release := Releasing(s.w.Ending? || s.w.Ended?), wshut := true, w := Signal(s.w), r := Signalled(s.r))
    case EndRelease =>
      s.(release := Gone(s.release.closer), closes := s.closes + if s.release.closer then 1 else 0, cur := None)
    case Begin(id, want) => s.(waiters := s.waiters[id := Waiter(want, None, false)])
    case Take(id) =>
      var s' := if s.cur.Some? then s else s.(cur := Some(s.made), made := s.made + 1);
      s'.(waiters := s.waiters[id := s.waiters[id].(taken := s'.cur)])
    case Miss(id) => s.(waiters := s.waiters[id := s.waiters[id].(checked := true)])
    case Leave(id) => s.(waiters := s.waiters - {id})
  }

  // ---- the invariant ----

  /** Output: nothing accepted is lost, reordered or repeated, and the loop sleeps and ends only when it may. */
  predicate OutputOk(s: State) {
    && s.accepted == s.written + s.wbuf && |s.wbuf| <= WRITE_BUF
    && (s.w.Writing? ==> s.w.out != [] && s.w.out <= s.wbuf && !s.werr)
    && (s.w == WParked(false) ==> s.wbuf == [] && !s.wshut && !s.werr)
    && (s.w.Ending? || s.w.Ended? ==> s.werr || (s.wbuf == [] && s.wshut))
  }

  /** Input: likewise, and the buffer is bounded. */
  predicate InputOk(s: State) {
    && s.received == s.delivered + s.rbuf && |s.rbuf| < READ_AHEAD + s.chunk
    && (s.r == Reading || s.r == Notifying(false) ==> |s.rbuf| < READ_AHEAD && s.rend == NoEnd)
    && (s.r == RParked(false) ==> |s.rbuf| >= READ_AHEAD && !Released(s))
    && (s.r.RParked? ==> s.rend == NoEnd)
  }

  /** Exactly one of the write loop and the release is to close the connection. */
  predicate CloserOk(s: State) {
    && s.closes == (if s.w == Ended(true) then 1 else 0) + (if s.release == Gone(true) then 1 else 0)
    && (Released(s) ==> s.wshut)
    && if s.w.Ending? || s.w.Ended? then s.w.closer == (Released(s) && !s.release.closer)
       else Released(s) ==> !s.release.closer
  }

  /** A waiter that was refused has a closed channel, or is about to, or would be refused still. */
  predicate WaiterOk(s: State, v: Waiter) {
    && (v.taken.Some? ==> v.taken.value < s.made)
    && (v.checked ==> v.taken.Some?)
    && (v.checked && IsOpen(s, v.taken.value) ==>
          match v.want
          case Data => !Ready(s, Data) || s.r.Notifying?
          case Space => |s.wbuf| == WRITE_BUF && !s.werr && (s.w.Writing? || s.w == WTop || s.w == WParked(true)))
  }

  predicate ChannelOk(s: State) {
    s.cur.Some? ==> s.cur.value < s.made
  }

  ghost predicate Inv(s: State) {
    && s.chunk < READ_AHEAD && ChannelOk(s)
    && OutputOk(s) && InputOk(s) && CloserOk(s)
    && forall id :: id in s.waiters ==> WaiterOk(s, s.waiters[id])
  }

  // ---- every step keeps it ----

  lemma OutputStep(s: State, step: Step)
    requires OutputOk(s) && Enabled(s, step)
    ensures OutputOk(Apply(s, step))
  {
    match step
    case Wrote(n, err) =>
      assert s.w.out[..n] == s.wbuf[..n];
      assert s.wbuf == s.wbuf[..n] + s.wbuf[n..];
      assert s.written + s.wbuf[..n] + s.wbuf[n..] == s.written + (s.wbuf[..n] + s.wbuf[n..]);
    case Send(b) =>
      if SendResult(s, b).Count? {
        var more := b[..SendResult(s, b).n];
        assert s.written + s.wbuf + more == s.written + (s.wbuf + more);
      }
    case _ =>
  }

  lemma InputStep(s: State, step: Step)
    requires InputOk(s) && Enabled(s, step)
    ensures InputOk(Apply(s, step))
  {
    match step
    case Got(bytes, end) => assert s.delivered + s.rbuf + bytes == s.delivered + (s.rbuf + bytes);
    case Recv(n, peek) =>
      if RecvResult(s, n).Bytes? && !peek && n > 0 {
        var b := RecvResult(s, n).b;
        assert s.rbuf == b + s.rbuf[|b|..];
        assert s.delivered + b + s.rbuf[|b|..] == s.delivered + (b + s.rbuf[|b|..]);
      }
    case _ =>
  }

  lemma CloserStep(s: State, step: Step)
    requires CloserOk(s) && OutputOk(s) && Enabled(s, step)
    ensures CloserOk(Apply(s, step))
  {
    hide OutputOk;
  }

  /** A step of anyone else leaves the waiter v no worse off. */
  lemma WaiterStep(s: State, step: Step, v: Waiter)
    requires s.chunk < READ_AHEAD && ChannelOk(s) && OutputOk(s) && InputOk(s) && WaiterOk(s, v) && Enabled(s, step)
    ensures WaiterOk(Apply(s, step), v)
  {
  }

  lemma OwnStep(s: State, step: Step, id: Wid)
    requires s.chunk < READ_AHEAD && ChannelOk(s) && OutputOk(s) && InputOk(s) && Enabled(s, step)
    requires step == Take(id) || step == Miss(id)
    requires id in s.waiters && WaiterOk(s, s.waiters[id])
    ensures WaiterOk(Apply(s, step), Apply(s, step).waiters[id])
  {
  }

  lemma NewWaiterOk(s: State, want: Want)
    ensures WaiterOk(s, Waiter(want, None, false))
  {
  }

  lemma StepInv(s: State, step: Step)
    requires Inv(s) && Enabled(s, step)
    ensures Inv(Apply(s, step))
  {
    hide OutputOk, InputOk, CloserOk, WaiterOk;
    OutputStep(s, step);
    InputStep(s, step);
    CloserStep(s, step);
    var s' := Apply(s, step);
    forall id | id in s'.waiters ensures WaiterOk(s', s'.waiters[id]) {
      if step == Take(id) || step == Miss(id) {
        OwnStep(s, step, id);
      } else if id in s.waiters {
        WaiterStep(s, step, s.waiters[id]);
      } else {
        NewWaiterOk(s', step.want);
      }
    }
  }

  // ---- runs ----

  function Fresh(chunk: nat): State {
    State(chunk, [], false, false, WTop, [], [], [], NoEnd, Reading, [], [], Held, 0, None, 0, map[])
  }

  /** A run of a socket whose reads bring at most chunk bytes; the program's sockets have CHUNK. */
  predicate IsRun(chunk: nat, run: seq<State>, steps: seq<Step>) {
    && |run| == |steps| + 1 && run[0] == Fresh(chunk)
    && forall i :: 0 <= i < |steps| ==> StepsTo(run[i], steps[i], run[i + 1])
  }

  predicate StepsTo(s: State, step: Step, s': State) {
    Enabled(s, step) && s' == Apply(s, step)
  }

  lemma {:induction false} RunInv(chunk: nat, run: seq<State>, steps: seq<Step>, k: nat)
    requires chunk < READ_AHEAD && IsRun(chunk, run, steps) && k < |run|
    ensures Inv(run[k]) && run[k].chunk == chunk
    decreases k
  {
    if k > 0 {
      RunInv(chunk, run, steps, k - 1);
      assert StepsTo(run[k - 1], steps[k - 1], run[k]);
      StepInv(run[k - 1], steps[k - 1]);
    }
  }

  /** Output is a faithful stream, and the loop ends without error only once everything accepted is written. */
  lemma OutputIsFaithful(run: seq<State>, steps: seq<Step>, k: nat)
    requires IsRun(CHUNK, run, steps) && k < |run|
    ensures var s := run[k];
            && s.accepted == s.written + s.wbuf && |s.wbuf| <= WRITE_BUF
            && (s.w.Writing? ==> s.w.out <= s.wbuf)
            && (s.w.Ending? || s.w.Ended? ==> s.werr || (s.written == s.accepted && s.wshut))
            && (s.w == WParked(false) ==> s.written == s.accepted && !s.wshut && !s.werr)
  {
    RunInv(CHUNK, run, steps, k);
  }

  /**
   The connection is closed at most once, and exactly once when the write loop has ended and the socket is
   released.
   */
  lemma OneCloser(run: seq<State>, steps: seq<Step>, k: nat)
    requires IsRun(CHUNK, run, steps) && k < |run|
    ensures run[k].closes <= 1
    ensures run[k].w.Ended? && run[k].release.Gone? ==> run[k].closes == 1
    ensures run[k].closes == 1 ==> Released(run[k]) && (run[k].werr || run[k].written == run[k].accepted)
  {
    RunInv(CHUNK, run, steps, k);
  }

  /**
   Input is a faithful stream of bounded size, and end of file is reported only once everything received is
   delivered.
   */
  lemma InputIsFaithful(run: seq<State>, steps: seq<Step>, k: nat, n: nat)
    requires IsRun(CHUNK, run, steps) && k < |run| && n > 0
    ensures var s := run[k];
            && s.received == s.delivered + s.rbuf && |s.rbuf| < READ_AHEAD + CHUNK
            && (RecvResult(s, n).EndOfFile? || RecvResult(s, n).Reset? ==>
                  s.delivered == s.received && forall bytes, end :: !Enabled(s, Got(bytes, end)))
  {
    RunInv(CHUNK, run, steps, k);
  }

  /** A receiver that found nothing sleeps on an open channel while the pump sleeps on a full buffer. */
  predicate Stranded(s: State, id: Wid) {
    && id in s.waiters && s.waiters[id].want == Data && s.waiters[id].checked && s.waiters[id].taken.Some?
    && IsOpen(s, s.waiters[id].taken.value) && s.r == RParked(false) && s.rbuf != []
  }

  ghost predicate CanStrand(chunk: nat) {
    exists run, steps, k: nat, id :: IsRun(chunk, run, steps) && k < |run| && Stranded(run[k], id)
  }

  /** Receivers are never stranded exactly because one read brings less than the read-ahead. */
  lemma StrandedExactly(chunk: nat)
    ensures CanStrand(chunk) <==> chunk >= READ_AHEAD
  {
    if chunk < READ_AHEAD {
      forall run: seq<State>, steps, k: nat, id: Wid | IsRun(chunk, run, steps) && k < |run|
        ensures !Stranded(run[k], id)
      {
        RunInv(chunk, run, steps, k);
        assert id in run[k].waiters ==> WaiterOk(run[k], run[k].waiters[id]);
      }
    } else {
      StrandedRun(chunk);
    }
  }

  lemma StrandingSteps(chunk: nat, bytes: seq<Byte>) returns (a1: State, a2: State, a3: State, a4: State)
    requires READ_AHEAD == |bytes| <= chunk
    ensures StepsTo(Fresh(chunk), Begin(0, Data), a1) && StepsTo(a1, Take(0), a2) && StepsTo(a2, Miss(0), a3)
    ensures StepsTo(a3, Got(bytes, NoEnd), a4) && Stranded(a4, 0)
  {
    a1 := Apply(Fresh(chunk), Begin(0, Data));
    a2 := Apply(a1, Take(0));
    a3 := Apply(a2, Miss(0));
    a4 := Apply(a3, Got(bytes, NoEnd));
  }

  lemma StrandedRun(chunk: nat)
    requires chunk >= READ_AHEAD
    ensures CanStrand(chunk)
  {
    hide StepsTo, Stranded;
    var bytes := seq(READ_AHEAD, _ => 0);
    var a1, a2, a3, a4 := StrandingSteps(chunk, bytes);
    var steps, run := [Begin(0, Data), Take(0), Miss(0), Got(bytes, NoEnd)], [Fresh(chunk), a1, a2, a3, a4];
    assert IsRun(chunk, run, steps) && Stranded(run[4], 0);
  }

  /**
   A user refused for lack of data or space, whose call would succeed now, has a closed channel or is
   about to: for data the pump's next step closes it; for space the write loop holds a full buffer,
   is awake, and closes it as soon as a write returns.
   */
  lemma NoLostWakeup(run: seq<State>, steps: seq<Step>, k: nat, id: Wid)
    requires IsRun(CHUNK, run, steps) && k < |run|
    requires id in run[k].waiters && run[k].waiters[id].checked && Ready(run[k], run[k].waiters[id].want)
    ensures var s := run[k];
            && s.waiters[id].taken.Some?
            && (IsOpen(s, s.waiters[id].taken.value) ==>
                  if s.waiters[id].want == Data then
                    Enabled(s, ReadNotify) && !IsOpen(Apply(s, ReadNotify), s.waiters[id].taken.value)
                  else
                    || (Enabled(s, WriteCheck) && Apply(s, WriteCheck).w.Writing?)
                    || (s.w.Writing? && forall n, err :: Enabled(s, Wrote(n, err)) ==>
                            !IsOpen(Apply(s, Wrote(n, err)), s.waiters[id].taken.value)))
  {
    RunInv(CHUNK, run, steps, k);
    assert WaiterOk(run[k], run[k].waiters[id]);
  }
}
