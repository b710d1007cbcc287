/**
 A regular file's contents: a slice of a larger buffer, whose spare capacity may hold
 bytes of an earlier, longer file. What a reader sees is a plain byte sequence.
 */
module FileData {

  datatype Errno = EINVAL | EBADF | EISDIR

  /** Panic is a slice bound out of range, or a slice too large to be made. */
  datatype Res<+T> = Ok(value: T) | Eof(value: T) | Err(error: Errno) | Panic

  const MAX_INT64: int := 0x7fff_ffff_ffff_ffff

  // ---- the plain file ----

  function Zeros(n: nat): (z: seq<bv8>)
    ensures |z| == n && forall i :: 0 <= i < n ==> z[i] == 0
  {
    seq(n, _ => 0)
  }

  /** Cut to n bytes, or extended to n with zeros. */
  function Resized(s: seq<bv8>, n: nat): (r: seq<bv8>)
    ensures |r| == n
    ensures forall i :: 0 <= i < n ==> r[i] == if i < |s| then s[i] else 0
  {
    if n <= |s| then s[..n] else s + Zeros(n - |s|)
  }

  /** b stored at off, after extending with zeros as far as needed. */
  function Written(s: seq<bv8>, off: nat, b: seq<bv8>): (r: seq<bv8>)
    ensures |r| == if off + |b| > |s| then off + |b| else |s|
    ensures forall i :: 0 <= i < |r| ==>
              r[i] == if off <= i < off + |b| then b[i - off] else if i < |s| then s[i] else 0
  {
    var t := if off + |b| > |s| then Resized(s, off + |b|) else s;
    t[..off] + b + t[off + |b|..]
  }

  function ReadFrom(s: seq<bv8>, off: nat, n: nat): seq<bv8> {
    if off >= |s| then [] else if off + n <= |s| then s[off..off + n] else s[off..]
  }

  /** A read gives the bytes from off on, as many as are asked for and there. */
  lemma ReadGives(s: seq<bv8>, off: nat, n: nat)
    ensures var r := ReadFrom(s, off, n);
            && |r| == (if off >= |s| then 0 else if n < |s| - off then n else |s| - off)
            && forall i :: 0 <= i < |r| ==> r[i] == s[off + i]
  {
  }

  datatype Change = Write(off: nat, b: seq<bv8>) | Truncate(size: nat)

  function Changed(s: seq<bv8>, c: Change): seq<bv8> {
    match c
    case Write(off, b) => Written(s, off, b)
    case Truncate(n) => Resized(s, n)
  }

  function ChangedAll(s: seq<bv8>, cs: seq<Change>): seq<bv8>
    decreases |cs|
  {
    if cs == [] then s else ChangedAll(Changed(s, cs[0]), cs[1..])
  }

  predicate WritesAt(c: Change, i: nat) {
    c.Write? && c.off <= i < c.off + |c.b|
  }

  /**
   Bytes cut off never reappear: where the file has ended before i, or is zero there, it reads
   zero after any further changes that do not write at i, however it is cut and extended.
   */
  lemma {:induction false} CutBytesStayZero(s: seq<bv8>, cs: seq<Change>, i: nat)
    requires i < |s| ==> s[i] == 0
    requires forall c :: c in cs ==> !WritesAt(c, i)
    ensures i < |ChangedAll(s, cs)| ==> ChangedAll(s, cs)[i] == 0
    decreases |cs|
  {
    if cs != [] {
      assert !WritesAt(cs[0], i);
      CutBytesStayZero(Changed(s, cs[0]), cs[1..], i);
    }
  }

  /** And bytes neither written over nor cut off stay. */
  lemma {:induction false} OtherBytesStay(s: seq<bv8>, cs: seq<Change>, i: nat)
    requires i < |s|
    requires forall c :: c in cs ==> !WritesAt(c, i) && (c.Truncate? ==> i < c.size)
    ensures i < |ChangedAll(s, cs)| && ChangedAll(s, cs)[i] == s[i]
    decreases |cs|
  {
    if cs != [] {
      assert !WritesAt(cs[0], i);
      OtherBytesStay(Changed(s, cs[0]), cs[1..], i);
    }
  }

  /** What was written is read back, and a write elsewhere does not disturb it. */
  lemma ReadBack(s: seq<bv8>, off: nat, b: seq<bv8>, off': nat, b': seq<bv8>)
    requires off + |b| <= off' || off' + |b'| <= off
    ensures ReadFrom(Written(s, off, b), off, |b|) == b
    ensures ReadFrom(Written(Written(s, off, b), off', b'), off, |b|) == b
  {
    var one := Written(s, off, b);
    var two := Written(one, off', b');
    if |b| > 0 {
      assert one[off..off + |b|] == b;
      assert two[off..off + |b|] == b;
    }
  }

  // ---- the slice ----

  /** A node's data; a directory has none, and refuses. */
  class Contents {
    const isDir: bool
    /** The largest slice that can be made. */
    const maxAlloc: nat
    var buf: array<bv8>
    var len: nat

    ghost predicate Valid()
      reads this
    {
      len <= buf.Length
    }

    /** The bytes of the file. */
    ghost function Bytes(): seq<bv8>
      reads this, buf
      requires Valid()
    {
      buf[..len]
    }

    constructor (isDir: bool, maxAlloc: nat)
      ensures Valid() && Bytes() == [] && fresh(buf) && this.isDir == isDir && this.maxAlloc == maxAlloc
    {
      this.isDir, this.maxAlloc := isDir, maxAlloc;
      buf := new bv8[0];
      len := 0;
    }

    /** Growing to size takes a new slice, and one that is too large. */
    predicate TooLarge(size: nat)
      reads this
    {
      size > buf.Length && (size > maxAlloc || 2 * buf.Length > maxAlloc)
    }

    /**
     grow: extends the slice to size, zero-filling, whatever its spare capacity holds, unless that takes too
     large a slice.
     */
    method Grow(size: nat) returns (ok: bool)
      requires Valid() && len <= size
      modifies this, buf
      ensures Valid() && (buf == old(buf) || fresh(buf)) && ok == !old(TooLarge(size))
      ensures Bytes() == if ok then Resized(old(Bytes()), size) else old(Bytes())
    {
      if size <= buf.Length {
        var i := len;
        while i < size
          invariant len <= i <= size && buf == old(buf) && len == old(len)
          invariant buf[..len] == old(buf[..len])
          invariant forall j :: len <= j < i ==> buf[j] == 0
        {
          buf[i] := 0;
          i := i + 1;
        }
        len := size;
        return true;
      }
      var c := if size > 2 * buf.Length then size else 2 * buf.Length;
      if c > maxAlloc {
        return false;
      }
      var nd := new bv8[c](_ => 0);
      var i := 0;
      while i < len
        invariant 0 <= i <= len && unchanged(this) && unchanged(buf) && fresh(nd) && nd.Length == c
        invariant forall j :: 0 <= j < i ==> nd[j] == buf[j]
        invariant forall j :: i <= j < c ==> nd[j] == 0
      {
        nd[i] := buf[i];
        i := i + 1;
      }
      buf := nd;
      len := size;
      return true;
    }

    /** WriteAt on a file opened with or without write access. */
    method WriteAt(b: seq<bv8>, off: int, writable: bool) returns (r: Res<nat>)
      requires Valid() && off <= MAX_INT64
      requires len + |b| <= MAX_INT64 // both are in memory at once
      modifies this, buf
      ensures Valid() && (buf == old(buf) || fresh(buf))
      ensures r == if isDir then Err(EISDIR)
                   else if !writable then Err(EBADF)
                   else if off < 0 then Err(EINVAL)
                   else if off + |b| > MAX_INT64 || old(TooLarge(off + |b|)) then Panic
                   else Ok(|b|)
      ensures Bytes() == if r.Ok? then Written(old(Bytes()), off, b) else old(Bytes())
    {
      if isDir {
        return Err(EISDIR);
      }
      if !writable {
        return Err(EBADF);
      }
      if off < 0 {
        return Err(EINVAL);
      }
      // The sum wraps to a negative end, so nothing is grown.
      var end := if off + |b| > MAX_INT64 then off + |b| - 2 * (MAX_INT64 + 1) else off + |b|;
      if end > len {
        var ok := Grow(end);
        if !ok {
          return Panic;
        }
      }
      if off > len {
        return Panic;
      }
      ghost var mid := Bytes();
      var i := 0;
      while i < |b| && off + i < len
        invariant 0 <= i <= |b| && off + i <= len && Valid() && len == |mid|
        invariant buf == old(buf) || fresh(buf)
        invariant forall j :: 0 <= j < len ==> buf[j] == if off <= j < off + i then b[j - off] else mid[j]
      {
        buf[off + i] := b[i];
        i := i + 1;
      }
      return Ok(|b|);
    }

    /** ReadAt into a buffer of n bytes. */
    method ReadAt(off: int, n: nat) returns (r: Res<seq<bv8>>)
      requires Valid()
      ensures isDir ==> r == Err(EISDIR)
      ensures !isDir && off < 0 ==> r == Err(EINVAL)
      ensures !isDir && off >= 0 ==>
                if off < len && |ReadFrom(Bytes(), off, n)| == n then r == Ok(ReadFrom(Bytes(), off, n))
                else r == Eof(ReadFrom(Bytes(), off, n))
    {
      if isDir {
        return Err(EISDIR);
      }
      if off < 0 {
        return Err(EINVAL);
      }
      if off >= len {
        return Eof([]);
      }
      var m := if n < len - off then n else len - off;
      assert buf[off..off + m] == ReadFrom(Bytes(), off, n);
      if m < n {
        return Eof(buf[off..off + m]);
      }
      return Ok(buf[off..off + m]);
    }

    /** Truncate, and with size 0 what opening with O_TRUNC does. */
    method Truncate(size: int) returns (r: Res<()>)
      requires Valid()
      modifies this, buf
      ensures Valid() && (buf == old(buf) || fresh(buf))
      ensures r == if isDir then Err(EISDIR)
                   else if size < 0 then Err(EINVAL)
                   else if old(TooLarge(size)) then Panic
                   else Ok(())
      ensures Bytes() == if r.Ok? then Resized(old(Bytes()), size) else old(Bytes())
    {
      if isDir {
        return Err(EISDIR);
      }
      if size < 0 {
        return Err(EINVAL);
      }
      if size <= len {
        len := size;
      } else {
        var ok := Grow(size);
        if !ok {
          return Panic;
        }
      }
      return Ok(());
    }
  }
}
