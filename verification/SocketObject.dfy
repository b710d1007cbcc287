/**
 A connected socket as an object: the calls of its users, and the two pumps as the loops they are. What
 the users call while a pump has given up the lock is a parameter of the pump, and so is what the
 connection does.
 */
module SocketObject {
  import opened Common
  import opened Socket

  /** A call of some user. */
  datatype Call = SendCall(b: seq<Byte>) | RecvCall(n: nat, peek: bool) | ShutdownCall | ReleaseCall

  /** A turn of the write loop: the calls while it does not hold the lock, and what becomes of a write. */
  datatype Turn = Turn(calls: seq<Call>, n: nat, err: bool)

  /** What the head of the write loop decides; End says whether the loop is to close the connection. */
  datatype Head = Park | Out(out: seq<Byte>) | End(close: bool)

  function HeadOf(head: Head): WriteLoop {
    match head
    case Park => WParked(false)
    case Out(out) => Writing(out)
    case End(close) => Ending(close)
  }

  /**
   A read from the connection: the calls before it returns, what it brings, and the calls each time the pump
   waits.
   */
  datatype Arrival = Arrival(calls: seq<Call>, bytes: seq<Byte>, end: ReadEnd, waits: seq<seq<Call>>)

  /** What the read loop does after a read: hold back, or notify and then stop or read on. */
  datatype Pumped = Full | Go(stop: bool)

  function PumpOf(next: Pumped): ReadLoop {
    match next
    case Full => RParked(false)
    case Go(stop) => Notifying(stop)
  }

  /** All that some reads brought. */
  function Brought(arrivals: seq<Arrival>): seq<Byte> {
    if arrivals == [] then [] else Brought(arrivals[..|arrivals| - 1]) + arrivals[|arrivals| - 1].bytes
  }

  /** How the stream stands after some reads: the last that came to an end says how. */
  function EndAfter(end: ReadEnd, arrivals: seq<Arrival>): ReadEnd {
    if arrivals == [] then end
    else if arrivals[|arrivals| - 1].end != NoEnd then arrivals[|arrivals| - 1].end
    else EndAfter(end, arrivals[..|arrivals| - 1])
  }

  lemma BroughtMore(end: ReadEnd, arrivals: seq<Arrival>, k: nat)
    requires k < |arrivals|
    ensures Brought(arrivals[..k + 1]) == Brought(arrivals[..k]) + arrivals[k].bytes
    ensures EndAfter(end, arrivals[..k + 1]) ==
            if arrivals[k].end == NoEnd then EndAfter(end, arrivals[..k]) else arrivals[k].end
  {
    assert arrivals[..k + 1][..k] == arrivals[..k];
  }

  /** What users' calls can do to a pump: they only wake it, and touch neither end of the connection. */
  ghost predicate Others(s: State, s': State) {
    && (s'.w == s.w || (s.w.WParked? && s'.w == WParked(true)))
    && (s'.r == s.r || (s.r.RParked? && s'.r == RParked(true)))
    && s'.written == s.written && s'.received == s.received && s'.rend == s.rend && s'.werr == s.werr
    && s.accepted <= s'.accepted && s.delivered <= s'.delivered
    && (s.wshut ==> s'.wshut) && (Released(s) ==> Released(s'))
  }

  /** How much of what was accepted is not written yet. */
  function Backlog(s: State): int {
    |s.accepted| - |s.written|
  }

  /** How much of what was received is not delivered yet. */
  function Unread(s: State): int {
    |s.received| - |s.delivered|
  }

  /** Nobody calls while the connection takes all that is written to it. */
  ghost predicate Quiet(turns: seq<Turn>) {
    forall t :: t in turns ==> t.calls == [] && t.n >= WRITE_BUF && !t.err
  }

  /** Some call in one of the turns releases the socket. */
  ghost predicate Releases(turns: seq<Turn>) {
    exists t :: t in turns && ReleaseCall in t.calls
  }

  lemma NoTurns()
    ensures !Releases([])
  {
  }

  lemma OneMoreTurn(turns: seq<Turn>, i: nat)
    requires i < |turns|
    ensures Quiet(turns) ==> Quiet([turns[i]]) && turns[i].calls == []
    ensures Releases(turns[..i + 1]) <==> Releases(turns[..i]) || ReleaseCall in turns[i].calls
  {
    assert turns[..i + 1] == turns[..i] + [turns[i]];
  }

  lemma OthersOnward(a: State, b: State, c: State)
    requires Others(a, b) && Others(b, c)
    ensures Others(a, c)
  {
  }

  class Connection {
    var wbuf: seq<Byte>
    var wshut: bool
    var werr: bool
    var wdone: bool
    /** Whether the condition variable of a parked write loop has been signalled; rwake likewise. */
    var wwake: bool
    var rbuf: seq<Byte>
    var rend: ReadEnd
    var rwake: bool
    var released: bool
    /** How often the connection was closed. */
    var closes: nat
    ghost var st: State

    ghost predicate Linked()
      reads this
    {
      && st.wbuf == wbuf && st.wshut == wshut && st.werr == werr && (wdone <==> st.w.Ending? || st.w.Ended?)
      && st.rbuf == rbuf && st.rend == rend && (released <==> Released(st)) && closes == st.closes
      && (st.w.WParked? ==> wwake == st.w.signalled) && (st.r.RParked? ==> rwake == st.r.signalled)
    }

    ghost predicate Valid()
      reads this
    {
      Linked() && Inv(st) && st.chunk == CHUNK && !st.release.Releasing?
    }

    constructor ()
      ensures Valid() && st == Fresh(CHUNK)
    {
      wbuf, wshut, werr, wdone, wwake := [], false, false, false, false;
      rbuf, rend, rwake := [], NoEnd, false;
      released, closes := false, 0;
      st := Fresh(CHUNK);
    }

    // ---- users ----

    /** send: what it reports as sent is accepted, in order; it refuses exactly after shutdown, error or release. */
    method Send(b: seq<Byte>) returns (r: Io)
      requires Valid()
      modifies this
      ensures Valid() && Others(old(st), st) && wshut == old(wshut) && released == old(released)
      ensures r == Pipe <==> old(werr) || old(wshut)
      ensures r == Again <==> !old(werr) && !old(wshut) && b != [] && Backlog(old(st)) == WRITE_BUF
      ensures r.Count? || r == Pipe || r == Again
      ensures if r.Count? then
                && r.n == (if |b| < WRITE_BUF - Backlog(old(st)) || b == [] then |b| else WRITE_BUF - Backlog(old(st)))
                && r.n <= |b| && st.accepted == old(st.accepted) + b[..r.n]
              else st == old(st)
    {
      hide Inv;
      StepInv(st, Socket.Send(b));
      assert st.accepted == st.written + st.wbuf && |st.wbuf| <= WRITE_BUF by {
        InvOutput(st);
      }
      if werr || wshut {
        return Pipe;
      }
      if |b| == 0 {
        assert b[..0] == [];
        return Count(0);
      }
      if |wbuf| >= WRITE_BUF {
        return Again;
      }
      var n := Min(|b|, WRITE_BUF - |wbuf|);
      st := Apply(st, Socket.Send(b));
      wbuf := wbuf + b[..n];
      wwake := true;
      r := Count(n);
    }

    /**
     recv: what it returns is what the connection brought next, taken unless peeked at; end of file comes after
     everything.
     */
    method Receive(n: nat, peek: bool) returns (r: Io)
      requires Valid()
      modifies this
      ensures Valid() && Others(old(st), st) && wshut == old(wshut) && released == old(released)
      ensures r.Bytes? ==>
                && |r.b| == (if n < Unread(old(st)) then n else Unread(old(st)))
                && old(st.delivered) + r.b <= st.received
                && st.delivered == if peek then old(st.delivered) else old(st.delivered) + r.b
      ensures r.Bytes? <==> n == 0 || Unread(old(st)) > 0
      ensures !r.Bytes? ==>
                && st == old(st)
                && r == match rend case NoEnd => Again case Eof => EndOfFile case Broken => Reset
    {
      hide Inv;
      StepInv(st, Recv(n, peek));
      InvInput(st);
      if n == 0 {
        assert st.delivered + [] == st.delivered;
        return Bytes([]);
      }
      if |rbuf| > 0 {
        var m := Min(n, |rbuf|);
        assert st.received == st.delivered + (rbuf[..m] + rbuf[m..]);
        r := Bytes(rbuf[..m]);
        st := Apply(st, Recv(n, peek));
        if !peek {
          rbuf := rbuf[m..];
          rwake := true;
        }
        return;
      }
      match rend
      case Eof => r := EndOfFile;
      case Broken => r := Reset;
      case NoEnd => r := Again;
    }

    /** shutdown of output: nothing is accepted any more, and what was accepted stays. */
    method ShutDown()
      requires Valid()
      modifies this
      ensures Valid() && Others(old(st), st) && wshut && st.accepted == old(st.accepted)
      ensures released == old(released)
    {
      hide Inv;
      StepInv(st, Shutdown);
      st := Apply(st, Shutdown);
      wshut, wwake := true, true;
    }

    /**
     release: the connection is closed now exactly if the write loop is over, and is the write loop's to close
     otherwise.
     */
    method Release()
      requires Valid() && !released
      modifies this
      ensures Valid() && Others(old(st), st) && released && wshut && wdone == old(wdone)
      ensures closes == if wdone then 1 else 0
    {
      hide Inv, Others, Apply;
      ghost var st' := ReleaseSteps(st);
      released, wshut, wwake, rwake := true, true, true, true;
      if wdone {
        closes := closes + 1;
      }
      st := st';
    }

    /** Some users' calls, one after the other. */
    method DoAll(calls: seq<Call>)
      requires Valid()
      modifies this
      ensures Valid() && Others(old(st), st) && wdone == old(wdone)
      ensures wshut <==> old(wshut) || ShutdownCall in calls || ReleaseCall in calls
      ensures released <==> old(released) || ReleaseCall in calls
      ensures calls == [] ==> st == old(st)
    {
      hide Inv;
      InvCloser(st);
      for i := 0 to |calls|
        invariant Valid() && Others(old(st), st) && (released ==> wshut)
        invariant wshut <==> old(wshut) || ShutdownCall in calls[..i] || ReleaseCall in calls[..i]
        invariant released <==> old(released) || ReleaseCall in calls[..i]
        invariant i == 0 ==> st == old(st)
      {
        assert calls[..i + 1] == calls[..i] + [calls[i]];
        ghost var was := st;
        match calls[i] {
          case SendCall(b) => var _ := Send(b);
          case RecvCall(n, peek) => var _ := Receive(n, peek);
          case ShutdownCall => ShutDown();
          case ReleaseCall =>
            if !released {
              Release();
            }
        }
        OthersOnward(old(st), was, st);
      }
      assert calls[..|calls|] == calls;
    }

    // ---- the write loop ----

    /** The head of the loop, under the lock. */
    method NextWrite() returns (head: Head)
      requires Valid() && Enabled(st, WriteCheck)
      modifies this
      ensures Valid() && st.w == HeadOf(head) && st == old(st).(w := HeadOf(head))
      ensures head.Park? <==> Backlog(st) == 0 && !wshut && !werr
      ensures head.End? <==> werr || (Backlog(st) == 0 && wshut)
      ensures head.End? ==> head.close == released
      ensures head.Out? ==> st.accepted == st.written + head.out && |head.out| <= WRITE_BUF
      ensures head.End? && !werr ==> st.written == st.accepted
      ensures head.Park? ==> st.written == st.accepted && !wwake
    {
      InvOutput(st);
      hide Inv;
      StepInv(st, WriteCheck);
      st := Apply(st, WriteCheck);
      if |wbuf| == 0 && !wshut && !werr {
        wwake := false;
        return Park;
      }
      if werr || |wbuf| == 0 {
        wdone := true;
        return End(released);
      }
      return Out(wbuf);
    }

    /** After a write that took n of the bytes. */
    method WriteDone(n: nat, err: bool)
      requires Valid() && st.w.Writing? && n <= |st.w.out| && (n < |st.w.out| ==> err)
      modifies this
      ensures Valid() && st.w == WTop && st.written == old(st.written) + old(st.w.out)[..n] && wdone == old(wdone)
      ensures released == old(released)
      ensures werr == (old(werr) || err) && wshut == old(wshut) && st.accepted == old(st.accepted)
    {
      InvOutput(st);
      hide Inv;
      StepInv(st, Wrote(n, err));
      st := Apply(st, Wrote(n, err));
      wbuf := wbuf[n..];
      werr := werr || err;
    }

    /** The write of a turn, with the calls while it goes on. */
    method WriteTurn(turn: Turn, out: seq<Byte>)
      requires Valid() && st.w == Writing(out) && st.accepted == st.written + out && |out| <= WRITE_BUF
      modifies this
      ensures Valid() && st.w == WTop && wdone == old(wdone) && old(st.written) <= st.written
      ensures Quiet([turn]) ==>
                st.written == st.accepted == old(st.accepted) && werr == old(werr) && wshut == old(wshut)
      ensures released <==> old(released) || ReleaseCall in turn.calls
    {
      hide Inv, Apply;
      DoAll(turn.calls);
      var n := Min(turn.n, |out|);
      if n == |out| {
        assert out[..n] == out;
      }
      assert Quiet([turn]) ==> turn in [turn];
      WriteDone(n, turn.err || n < |out|);
    }

    /** After the loop, without the lock: the connection is closed if the socket was released before the loop ended. */
    method EndLoop(close: bool)
      requires Valid() && st.w == Ending(close)
      modifies this
      ensures Valid() && st == Apply(old(st), EndWrite) && wdone == old(wdone) && released == old(released)
      ensures werr == old(werr)
    {
      hide Inv;
      StepInv(st, EndWrite);
      st := Apply(st, EndWrite);
      if close {
        closes := closes + 1;
      }
    }

    /**
     writeLoop, as far as the turns go; late are the calls between the end of the loop and the closing. It
     ends only after an error or once everything accepted is written and output is shut down; then the
     connection has been closed, once, exactly if the socket is released. Left alone with a connection that
     takes everything it writes all there is, and ends exactly if output is shut down.
     */
    method WriteLoop(turns: seq<Turn>, late: seq<Call>) returns (ended: bool)
      requires Valid() && st.w == WTop
      modifies this
      ensures Valid() && old(st.written) <= st.written && (ended <==> wdone)
      ensures ended ==> werr || (wshut && st.written == st.accepted)
      ensures ended ==> closes == if released then 1 else 0
      ensures Quiet(turns) && |turns| >= 2 && !old(werr) ==>
                st.written == old(st.accepted) && !werr && (ended <==> old(wshut))
      ensures !ended ==> (released <==> old(released) || Releases(turns))
    {
      hide Inv, Apply, Quiet, Releases;
      NoTurns();
      var parked := false;
      for i := 0 to |turns|
        invariant Valid() && !wdone && old(st.written) <= st.written
        invariant if parked then st.w.WParked? else st.w == WTop
        invariant released <==> old(released) || Releases(turns[..i])
        invariant Quiet(turns) && !old(werr) ==>
                    && !werr && wshut == old(wshut) && st.accepted == old(st.accepted)
                    && (i >= 1 ==> st.written == st.accepted)
                    && (i >= 2 ==> parked) && (parked ==> i >= 1 && !wshut && !wwake)
      {
        OneMoreTurn(turns, i);
        if !parked || wwake {
          var head := NextWrite();
          match head {
            case Park => parked := true;
            case Out(out) =>
              parked := false;
              WriteTurn(turns[i], out);
            case End(close) =>
              Finish(late, close);
              return true;
          }
        }
        if parked {
          DoAll(turns[i].calls);
        }
      }
      assert turns[..|turns|] == turns;
      return false;
    }

    /** The end of the loop, with the calls before the connection is closed. */
    method Finish(late: seq<Call>, close: bool)
      requires Valid() && st.w == Ending(close)
      modifies this
      ensures Valid() && wdone && st.written == old(st.written) && werr == old(werr)
      ensures werr || (wshut && st.written == st.accepted)
      ensures closes == if released then 1 else 0
    {
      hide Inv;
      DoAll(late);
      EndLoop(close);
      InvOutput(st);
      InvCloser(st);
      assert st.written + [] == st.written;
    }

    // ---- the read loop ----

    /** A read has returned: what the pump does next, decided under the lock. */
    method ReadDone(bytes: seq<Byte>, end: ReadEnd) returns (next: Pumped)
      requires Valid() && st.r == Reading && |bytes| <= CHUNK
      modifies this
      ensures Valid() && st.received == old(st.received) + bytes && st.r == PumpOf(next)
      ensures rend == if end == NoEnd then old(rend) else end
      ensures next.Go? && next.stop ==> rend != NoEnd || released
    {
      hide Inv;
      StepInv(st, Got(bytes, end));
      st := Apply(st, Got(bytes, end));
      rbuf := rbuf + bytes;
      rend := if end == NoEnd then rend else end;
      next := Look();
    }

    /** The test of the pump's wait. */
    method Look() returns (next: Pumped)
      modifies `rwake
      ensures next == if |rbuf| >= READ_AHEAD && rend == NoEnd && !released then Full else Go(rend != NoEnd || released)
      ensures next == Full ==> !rwake
    {
      if |rbuf| >= READ_AHEAD && rend == NoEnd && !released {
        rwake := false;
        return Full;
      }
      return Go(rend != NoEnd || released);
    }

    /** The wait of a full pump, as long as the calls go. */
    method HoldBack(waits: seq<seq<Call>>) returns (next: Pumped)
      requires Valid() && st.r == RParked(false)
      modifies this
      ensures Valid() && st.received == old(st.received) && rend == old(rend)
      ensures if next.Full? then st.r.RParked? else st.r == PumpOf(next)
      ensures next.Go? && next.stop ==> rend != NoEnd || released
    {
      hide Inv;
      next := Full;
      for j := 0 to |waits|
        invariant Valid() && st.received == old(st.received) && st.r.RParked? && next.Full? && rend == old(rend)
      {
        DoAll(waits[j]);
        if rwake {
          StepInv(st, ReadCheck);
          st := Apply(st, ReadCheck);
          next := Look();
          if next.Go? {
            return;
          }
        }
      }
    }

    /** The notification after a read; then the loop stops or reads on. */
    method NotifyRead(stop: bool)
      requires Valid() && st.r == Notifying(stop)
      modifies this
      ensures Valid() && st.r == (if stop then Stopped else Reading) && st.received == old(st.received)
      ensures released == old(released) && rend == old(rend) && rbuf == old(rbuf)
    {
      hide Inv;
      StepInv(st, ReadNotify);
      st := Apply(st, ReadNotify);
    }

    /**
     readLoop, as far as the arrivals go; k of them were read. All that they brought is received, in order
     and into a bounded buffer, and the loop stops only at the end of the stream or after release.
     */
    method ReadLoop(arrivals: seq<Arrival>) returns (stopped: bool, k: nat)
      requires Valid() && st.r == Reading && forall i :: 0 <= i < |arrivals| ==> |arrivals[i].bytes| <= CHUNK
      modifies this
      ensures Valid() && k <= |arrivals| && st.received == old(st.received) + Brought(arrivals[..k])
      ensures |rbuf| < READ_AHEAD + CHUNK
      ensures stopped ==> st.r == Stopped && (rend != NoEnd || released)
      ensures rend == EndAfter(old(rend), arrivals[..k])
      ensures !stopped ==> st.r.RParked? || (k == |arrivals| && st.r == Reading)
    {
      hide Inv, Apply;
      k := 0;
      assert st.received + [] == st.received;
      while k < |arrivals|
        invariant Valid() && st.r == Reading && k <= |arrivals|
        invariant st.received == old(st.received) + Brought(arrivals[..k]) && rend == EndAfter(old(rend), arrivals[..k])
      {
        var a := arrivals[k];
        DoAll(a.calls);
        ghost var was := st.received;
        var next := ReadDone(a.bytes, a.end);
        BroughtMore(old(rend), arrivals, k);
        assert was + a.bytes == old(st.received) + (Brought(arrivals[..k]) + a.bytes);
        k := k + 1;
        if next.Full? {
          next := HoldBack(a.waits);
        }
        InvInput(st);
        match next
        case Full => return false, k;
        case Go(stop) =>
          NotifyRead(stop);
          if stop {
            return true, k;
          }
      }
      InvInput(st);
      return false, k;
    }
  }

  lemma InvOutput(s: State)
    requires Inv(s)
    ensures s.accepted == s.written + s.wbuf && |s.wbuf| <= WRITE_BUF
    ensures s.w.Writing? ==> s.w.out <= s.wbuf
    ensures s.w.Ending? || s.w.Ended? ==> s.werr || (s.wbuf == [] && s.wshut)
  {
  }

  lemma InvInput(s: State)
    requires Inv(s)
    ensures s.received == s.delivered + s.rbuf && |s.rbuf| < READ_AHEAD + s.chunk
    ensures s.r == Reading ==> s.rend == NoEnd
  {
  }

  /** Both sections of release, one after the other. */
  lemma ReleaseSteps(s: State) returns (s': State)
    requires Inv(s) && !Released(s)
    ensures Inv(s') && Others(s, s') && s'.wshut && s'.release.Gone?
    ensures s'.wbuf == s.wbuf && s'.werr == s.werr && s'.rbuf == s.rbuf && s'.rend == s.rend && s'.chunk == s.chunk
    ensures s'.w == Signal(s.w) && s'.r == Signalled(s.r)
    ensures s.closes == 0 && s'.closes == if s.w.Ending? || s.w.Ended? then 1 else 0
  {
    InvCloser(s);
    hide Inv;
    StepInv(s, BeginRelease);
    var s1 := Apply(s, BeginRelease);
    StepInv(s1, EndRelease);
    s' := Apply(s1, EndRelease);
  }

  lemma InvCloser(s: State)
    requires Inv(s)
    ensures !Released(s) ==> s.closes == 0
    ensures s.closes <= 1 && (s.w.Ended? && s.release.Gone? ==> s.closes == 1)
    ensures Released(s) ==> s.wshut
  {
  }
}
