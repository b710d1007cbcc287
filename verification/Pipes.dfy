/** An in-memory pipe: a bounded byte queue with counts of its two ends. */
module Pipes {

  type Byte = bv8

  const CAPACITY: nat := 65536
  /** PIPE_BUF: writes up to this size are never split. */
  const ATOMIC: nat := 4096

  /** accepted and delivered are all the bytes ever written and read. */
  datatype Pipe = Pipe(buf: seq<Byte>, readers: int, writers: int, accepted: seq<Byte>, delivered: seq<Byte>)

  datatype Io = Data(bytes: seq<Byte>) | Wrote(n: nat) | Eof | Eagain | Epipe

  function Min(a: nat, b: nat): nat {
    if a < b then a else b
  }

  /** What a read of n bytes returns. */
  function ReadResult(p: Pipe, n: nat): Io {
    if n == 0 then Data([])
    else if p.buf != [] then Data(p.buf[..Min(n, |p.buf|)])
    else if p.writers == 0 then Eof
    else Eagain
  }

  function AfterRead(p: Pipe, n: nat): Pipe {
    match ReadResult(p, n)
    case Data(bytes) => p.(buf := p.buf[|bytes|..], delivered := p.delivered + bytes)
    case _ => p
  }

  function WriteResult(p: Pipe, b: seq<Byte>): Io {
    if p.readers == 0 then Epipe
    else if b == [] then Wrote(0)
    else if |p.buf| >= CAPACITY || (|b| <= ATOMIC && CAPACITY - |p.buf| < |b|) then Eagain
    else Wrote(Min(|b|, CAPACITY - |p.buf|))
  }

  function AfterWrite(p: Pipe, b: seq<Byte>): Pipe {
    match WriteResult(p, b)
    case Wrote(n) => p.(buf := p.buf + b[..n], accepted := p.accepted + b[..n])
    case _ => p
  }

  /** The pipe is a queue: what was accepted is what was delivered and what it holds, in order. */
  predicate Fifo(p: Pipe) {
    p.accepted == p.delivered + p.buf && |p.buf| <= CAPACITY
  }

  lemma ReadFifo(p: Pipe, n: nat)
    requires Fifo(p)
    ensures Fifo(AfterRead(p, n))
  {
    if ReadResult(p, n).Data? {
      var bytes := ReadResult(p, n).bytes;
      assert p.buf == bytes + p.buf[|bytes|..];
    }
  }

  lemma WriteFifo(p: Pipe, b: seq<Byte>)
    requires Fifo(p)
    ensures Fifo(AfterWrite(p, b))
  {
    if WriteResult(p, b).Wrote? {
      var n := WriteResult(p, b).n;
      assert p.delivered + p.buf + b[..n] == p.delivered + (p.buf + b[..n]);
    }
  }

  /** What a read is to do: what it returns leaves the front of the buffer, as much as is asked for and there. */
  predicate Takes(p: Pipe, n: nat, r: Io, p': Pipe) {
    && p'.readers == p.readers && p'.writers == p.writers && p'.accepted == p.accepted
    && (n > 0 && p.buf != [] <==> r.Data? && r.bytes != [])
    && (r.Data? ==>
          && |r.bytes| == (if n < |p.buf| then n else |p.buf|)
          && p.buf == r.bytes + p'.buf && p'.delivered == p.delivered + r.bytes)
    && (n == 0 <==> r == Data([]))
    && (r == Eof <==> n > 0 && p.buf == [] && p.writers == 0)
    && (r == Eagain <==> n > 0 && p.buf == [] && p.writers != 0)
    && (!r.Data? ==> p' == p)
  }

  lemma ReadTakes(p: Pipe, n: nat)
    ensures Takes(p, n, ReadResult(p, n), AfterRead(p, n))
  {
    if ReadResult(p, n).Data? {
      var bytes := ReadResult(p, n).bytes;
      assert p.buf == bytes + p.buf[|bytes|..];
    }
  }

  /** What a write is to do: the bytes it reports go to the back of the buffer, as many as there is space for. */
  predicate Puts(p: Pipe, b: seq<Byte>, r: Io, p': Pipe) {
    var space := 65536 - |p.buf|;
    && p'.readers == p.readers && p'.writers == p.writers && p'.delivered == p.delivered
    && (r == Epipe <==> p.readers == 0)
    && (r == Eagain <==> p.readers != 0 && b != [] && (space <= 0 || (|b| <= 4096 && space < |b|)))
    && (r.Wrote? || r == Epipe || r == Eagain)
    && (if r.Wrote? then
          && r.n == (if b == [] || |b| < space then |b| else space)
          && p'.buf == p.buf + b[..r.n] && p'.accepted == p.accepted + b[..r.n]
        else p' == p)
  }

  lemma WritePuts(p: Pipe, b: seq<Byte>)
    ensures Puts(p, b, WriteResult(p, b), AfterWrite(p, b))
  {
    assert b[..0] == [] && p.buf + [] == p.buf && p.accepted + [] == p.accepted;
  }

  /** A write of at most PIPE_BUF bytes goes in whole or not at all. */
  lemma SmallWriteIsAtomic(p: Pipe, b: seq<Byte>)
    requires |b| <= ATOMIC
    ensures if WriteResult(p, b).Wrote? then WriteResult(p, b).n == |b| && AfterWrite(p, b).buf == p.buf + b
            else AfterWrite(p, b) == p
  {
    assert b[..|b|] == b;
  }

  /** Any sequence of reads and writes keeps the order of bytes. */
  datatype Op = Read(n: nat) | Write(b: seq<Byte>)

  function AfterAll(p: Pipe, ops: seq<Op>): Pipe
    decreases |ops|
  {
    if ops == [] then p
    else AfterAll(match ops[0] case Read(n) => AfterRead(p, n) case Write(b) => AfterWrite(p, b), ops[1..])
  }

  lemma {:induction false} RunFifo(p: Pipe, ops: seq<Op>)
    requires Fifo(p)
    ensures Fifo(AfterAll(p, ops)) && p.accepted <= AfterAll(p, ops).accepted
    ensures p.delivered <= AfterAll(p, ops).delivered
    decreases |ops|
  {
    if ops != [] {
      match ops[0]
      case Read(n) =>
        ReadFifo(p, n);
        RunFifo(AfterRead(p, n), ops[1..]);
      case Write(b) =>
        WriteFifo(p, b);
        RunFifo(AfterWrite(p, b), ops[1..]);
    }
  }

  /** The pipe's fields; accepted and delivered are the history its callers see. */
  class Buffer {
    var buf: seq<Byte>
    var readers: int
    var writers: int
    ghost var accepted: seq<Byte>
    ghost var delivered: seq<Byte>

    ghost function View(): Pipe
      reads this
    {
      Pipe(buf, readers, writers, accepted, delivered)
    }

    constructor ()
      ensures Fifo(View()) && View() == Pipe([], 1, 1, [], [])
    {
      buf, readers, writers := [], 1, 1;
      accepted, delivered := [], [];
    }

    /** read takes the first n bytes, or all if there are fewer; an empty pipe ends or would block. */
    method Read(n: nat) returns (r: Io)
      requires Fifo(View())
      modifies this
      ensures r == ReadResult(old(View()), n) && View() == AfterRead(old(View()), n) && Fifo(View())
      ensures Takes(old(View()), n, r, View())
    {
      ReadFifo(View(), n);
      ReadTakes(View(), n);
      if n == 0 {
        return Data([]);
      }
      if |buf| > 0 {
        var k := Min(n, |buf|);
        r := Data(buf[..k]);
        delivered := delivered + buf[..k];
        buf := buf[k..];
        return;
      }
      return if writers == 0 then Eof else Eagain;
    }

    /** write puts in as much as there is space for, small writes whole; without space it would block. */
    method Write(b: seq<Byte>) returns (r: Io)
      requires Fifo(View())
      modifies this
      ensures r == WriteResult(old(View()), b) && View() == AfterWrite(old(View()), b) && Fifo(View())
      ensures Puts(old(View()), b, r, View())
    {
      WriteFifo(View(), b);
      WritePuts(View(), b);
      if readers == 0 {
        return Epipe;
      }
      if |b| == 0 {
        return Wrote(0);
      }
      var space := CAPACITY - |buf|;
      if space <= 0 || (|b| <= ATOMIC && space < |b|) {
        return Eagain;
      }
      var n := Min(|b|, space);
      buf := buf + b[..n];
      accepted := accepted + b[..n];
      return Wrote(n);
    }
  }
}
