/**
 A resource with its notifier as an object, the semaphore's operations on it, and the round of poll over its
 entries.
 */
module WakeupObjects {
  import opened Common
  import opened Wakeup
  import Pipes

  class Resource {
    var res: Res
    var cur: Option<nat>
    var made: nat
    ghost var owed: nat

    ghost function Now(): Cell
      reads this
    {
      Cell(res, cur, made, owed)
    }

    /** The channel that the next change will close. */
    method TakeChannel() returns (g: nat)
      modifies this
      ensures Now() == Waited(old(Now())) && IsOpen(Now(), g)
      ensures old(cur) != Some(g) ==> g == old(made)
    {
      if cur == None {
        cur, made := Some(made), made + 1;
      }
      g := cur.value;
    }

    /** Closes the open channel, if there is one. */
    method CloseChannel()
      modifies this
      ensures Now() == Closed(old(Now()))
      ensures forall g :: !IsOpen(Now(), g)
    {
      if cur != None {
        cur := None;
      }
    }

    /** tryLock: takes a unit if there is one, and so never more than there are. */
    method TryLock() returns (ok: bool)
      requires res.Sema?
      modifies this
      ensures ok <==> Ready(old(res), Lock)
      ensures Now() == if ok then old(Now()).(res := Tried(old(res), Lock, 0)) else old(Now())
      ensures Conserved(old(res)) ==> Conserved(res)
      ensures Conserved(res) && res.initial >= 0 && res.lost >= 0 ==> res.locks <= res.initial + res.unlocks
    {
      ok := res.count > 0;
      if ok {
        res := res.(count := res.count - 1, locks := res.locks + 1);
      }
    }

    /** unlock: gives back a unit, then wakes everyone. */
    method GiveBack()
      requires res.Sema?
      modifies this
      ensures res.Sema? && res == old(res).(count := old(res).count + 1, unlocks := old(res).unlocks + 1)
      ensures made == old(made) && owed == old(owed) && forall g :: !IsOpen(Now(), g)
      ensures Conserved(old(res)) ==> Conserved(res)
    {
      res := res.(count := res.count + 1, unlocks := res.unlocks + 1);
      owed := owed + 1;
      CloseChannel();
      owed := owed - 1;
    }

    method Clear()
      requires res.Sema?
      modifies this
      ensures res.Sema? && res.count == 0 && cur == old(cur) && made == old(made) && owed == old(owed)
      ensures res.locks == old(res).locks && res.unlocks == old(res).unlocks && res.initial == old(res).initial
      ensures Conserved(old(res)) ==> Conserved(res)
    {
      res := res.(count := 0, lost := res.lost + res.count);
    }
  }

  // ---- poll ----

  datatype Flag = In | Out | Err | Hup | Nval

  datatype PollFd = PollFd(fd: int, events: set<Flag>, revents: set<Flag>)

  /** The flags a round stores in an entry; polled is what its file reports, if the descriptor is open. */
  function Answer(e: PollFd, polled: Option<set<Flag>>): set<Flag> {
    if e.fd < 0 then {}
    else if polled == None then {Nval}
    else polled.value * (e.events + {Err, Hup})
  }

  function ReaderPoll(p: Pipes.Pipe): set<Flag> {
    (if |p.buf| > 0 then {In} else {}) + if p.writers == 0 then {Hup} else {}
  }

  function WriterPoll(p: Pipes.Pipe): set<Flag> {
    if p.readers == 0 then {Err}
    else if Pipes.CAPACITY - |p.buf| >= Pipes.ATOMIC then {Out}
    else {}
  }

  /** The open file of an entry: an end of a pipe, or some other file and what it reports. */
  datatype Polled = NotOpen | ReadEnd(p: Pipes.Pipe) | WriteEnd(p: Pipes.Pipe) | OtherFile(flags: set<Flag>)

  function Report(f: Polled): Option<set<Flag>> {
    match f
    case NotOpen => None
    case ReadEnd(p) => Some(ReaderPoll(p))
    case WriteEnd(p) => Some(WriterPoll(p))
    case OtherFile(flags) => Some(flags)
  }

  /** Waiting for the entry's file would end at once. */
  ghost predicate EndsAtOnce(e: PollFd, f: Polled) {
    e.fd >= 0 &&
    match f
    case NotOpen => true
    case ReadEnd(p) => Ready(Pipe(p), PollIn(In in e.events))
    case WriteEnd(p) => Ready(Pipe(p), PollOut(Out in e.events))
    case OtherFile(flags) => flags * (e.events + {Err, Hup}) != {}
  }

  /** Polling the ends of a pipe is the wait of Wakeup: an entry is answered exactly when its want is ready. */
  lemma AnswerIsReady(p: Pipes.Pipe, e: PollFd)
    requires e.fd >= 0
    ensures Answer(e, Some(ReaderPoll(p))) != {} <==> Ready(Pipe(p), PollIn(In in e.events))
    ensures Answer(e, Some(WriterPoll(p))) != {} <==> Ready(Pipe(p), PollOut(Out in e.events))
  {
    var r, w := Answer(e, Some(ReaderPoll(p))), Answer(e, Some(WriterPoll(p)));
    assert r != {} <==> In in r || Hup in r by {
      assert r <= {In, Hup};
    }
    assert w != {} <==> Out in w || Err in w by {
      assert w <= {Out, Err};
    }
  }

  /**
   What poll stores, flag by flag: data and space only if asked for, hang-up and error always, and nothing
   for a negative descriptor.
   */
  lemma PollFlags(e: PollFd, f: Polled, flag: Flag)
    ensures flag in Answer(e, Report(f)) <==>
            && e.fd >= 0
            && match f
               case NotOpen => flag == Nval
               case ReadEnd(p) => (flag == In && In in e.events && p.buf != []) || (flag == Hup && p.writers == 0)
               case WriteEnd(p) =>
                 || (flag == Err && p.readers == 0)
                 || (flag == Out && Out in e.events && p.readers != 0 && 65536 - |p.buf| >= 4096)
               case OtherFile(flags) => flag in flags && (flag in e.events || flag == Err || flag == Hup)
  {
  }

  /**
   A read is answered exactly when a read of some bytes would not block, a write when one of PIPE_BUF bytes
   would not.
   */
  lemma PollPromises(p: Pipes.Pipe, n: nat, bytes: seq<Pipes.Byte>)
    requires n > 0 && |bytes| == Pipes.ATOMIC
    ensures Ready(Pipe(p), PollIn(true)) <==> Ready(Pipe(p), Read(n))
    ensures Ready(Pipe(p), PollOut(true)) <==> Ready(Pipe(p), Write(bytes))
  {
  }

  /** The number of entries that are answered. */
  function Answered(raw: seq<PollFd>): nat {
    if raw == [] then 0
    else Answered(raw[..|raw| - 1]) + if raw[|raw| - 1].revents != {} then 1 else 0
  }

  lemma {:induction false} NoneAnswered(raw: seq<PollFd>)
    ensures Answered(raw) == 0 <==> forall i :: 0 <= i < |raw| ==> raw[i].revents == {}
  {
    if raw != [] {
      var shorter := raw[..|raw| - 1];
      NoneAnswered(shorter);
      assert forall i :: 0 <= i < |shorter| ==> shorter[i] == raw[i];
    }
  }

  /**
   One round: every entry gets its answer, nothing else changes, and ready counts the entries answered; it
   is zero exactly when waiting for none of the files would end at once.
   */
  method PollRound(raw: array<PollFd>, files: seq<Polled>) returns (ready: nat)
    requires |files| == raw.Length
    modifies raw
    ensures forall i :: 0 <= i < raw.Length ==> raw[i] == old(raw[i]).(revents := Answer(old(raw[i]), Report(files[i])))
    ensures ready == Answered(raw[..])
    ensures ready == 0 <==> forall i :: 0 <= i < raw.Length ==> !EndsAtOnce(raw[i], files[i])
  {
    hide Answer, EndsAtOnce, Report;
    ready := 0;
    for i := 0 to raw.Length
      invariant forall j :: 0 <= j < i ==> raw[j] == old(raw[j]).(revents := Answer(old(raw[j]), Report(files[j])))
      invariant forall j :: i <= j < raw.Length ==> raw[j] == old(raw[j])
      invariant ready == Answered(raw[..i])
    {
      ghost var was := raw[..i];
      raw[i] := raw[i].(revents := Answer(raw[i], Report(files[i])));
      if raw[i].revents != {} {
        ready := ready + 1;
      }
      assert raw[..i + 1] == was + [raw[i]];
      assert raw[..i + 1][..i] == was;
    }
    NoneAnswered(raw[..]);
    assert raw[..raw.Length] == raw[..];
    forall i | 0 <= i < raw.Length ensures EndsAtOnce(raw[i], files[i]) <==> raw[i].revents != {} {
      AnswerEnds(old(raw[i]), files[i], raw[i]);
    }
  }

  lemma AnswerEnds(e: PollFd, f: Polled, e': PollFd)
    requires e' == e.(revents := Answer(e, Report(f)))
    ensures EndsAtOnce(e', f) <==> e'.revents != {}
  {
    if e.fd >= 0 && (f.ReadEnd? || f.WriteEnd?) {
      AnswerIsReady(f.p, e);
    }
  }
}
