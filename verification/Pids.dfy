/** Process ids: a pid is the host's pid and a slot, and slots are handed out from a cursor that goes round. */
module Pids {

  type KernelId = nat

  const SLOTS: int := 2048
  const HOST_RANGE: int := 0x10_0000
  const MAX_INT32: int := 0x7fff_ffff

  /** pidBase for a host pid. */
  function Base(hostPid: nat): int {
    hostPid % HOST_RANGE * SLOTS
  }

  /** hostPidOf: pid >> 11. */
  function HostOf(pid: nat): nat {
    pid / SLOTS
  }

  /** Slot n of the host is in use. */
  predicate Taken(owners: map<int, KernelId>, hostPid: nat, n: int) {
    Base(hostPid) + n in owners
  }

  /** A slot's pid is a positive int32 from which the host's pid, as far as it counts, is recovered. */
  lemma PidFits(hostPid: nat, n: int)
    requires 1 <= n < SLOTS
    ensures 0 < Base(hostPid) + n <= MAX_INT32
    ensures HostOf(Base(hostPid) + n) == hostPid % HOST_RANGE
  {
  }

  /** Hosts that differ in what counts never share a pid, whatever slots they use. */
  lemma HostsNeverShare(h1: nat, h2: nat, n1: int, n2: int)
    requires h1 % HOST_RANGE != h2 % HOST_RANGE && 1 <= n1 < SLOTS && 1 <= n2 < SLOTS
    ensures Base(h1) + n1 != Base(h2) + n2
  {
    PidFits(h1, n1);
    PidFits(h2, n2);
  }

  /** The cursor after i moves from n. */
  function Cursor(n: int, i: nat): int
    requires 1 <= n < SLOTS && i <= SLOTS
  {
    if n + i < SLOTS then n + i else if n + i < 2 * SLOTS - 1 then n + i - (SLOTS - 1) else n + i - 2 * (SLOTS - 1)
  }

  lemma CursorMoves(n: int, i: nat)
    requires 1 <= n < SLOTS && i < SLOTS
    ensures 1 <= Cursor(n, i) < SLOTS && Cursor(n, i + 1) == Cursor(n, i) % (SLOTS - 1) + 1
  {
  }

  /** From any cursor every slot is met within the moves one search makes. */
  lemma CursorReaches(n: int, slot: int)
    requires 1 <= n < SLOTS && 1 <= slot < SLOTS
    ensures exists i :: 0 <= i < SLOTS && Cursor(n, i) == slot
  {
    var i := if slot >= n then slot - n else slot - n + (SLOTS - 1);
    assert Cursor(n, i) == slot;
  }

  /** The first free slot that a search from the cursor meets is the one after skips taken ones. */
  ghost predicate FirstFree(taken: set<int>, cursor: int, skips: nat) {
    && 1 <= cursor < SLOTS && skips < SLOTS && Cursor(cursor, skips) !in taken
    && forall j :: 0 <= j < skips ==> Cursor(cursor, j) in taken
  }

  /** The slots of a host that are taken. */
  function Slots(owners: map<int, KernelId>, hostPid: nat): set<int> {
    set n | 1 <= n < SLOTS && Taken(owners, hostPid, n)
  }

  /** The pids of one host process, across all its kernels. */
  class Registry {
    const hostPid: nat
    var next: int
    var owners: map<int, KernelId>

    ghost predicate Valid()
      reads this
    {
      && 1 <= next < SLOTS
      && forall pid :: pid in owners ==> Base(hostPid) < pid < Base(hostPid) + SLOTS
    }

    constructor (hostPid: nat)
      ensures Valid() && owners == map[]
    {
      this.hostPid := hostPid;
      next, owners := 1, map[];
    }

    /**
     allocPid: it fails exactly when every slot is taken; otherwise it takes the first that is free from the
     cursor on.
     */
    method Allocate(k: KernelId) returns (pid: int, ghost skips: nat)
      requires Valid()
      modifies this
      ensures Valid()
      ensures pid == 0 <==> forall n :: 1 <= n < SLOTS ==> old(Taken(owners, hostPid, n))
      ensures pid == 0 ==> owners == old(owners)
      ensures pid != 0 ==>
                && 0 < pid <= MAX_INT32 && pid !in old(owners) && owners == old(owners)[pid := k]
                && HostOf(pid) == hostPid % HOST_RANGE
      ensures pid != 0 ==>
                && FirstFree(old(Slots(owners, hostPid)), old(next), skips)
                && pid == Base(hostPid) + Cursor(old(next), skips) && next == Cursor(old(next), skips + 1)
    {
      ghost var start := next;
      skips := 0;
      var i := 0;
      while i < SLOTS
        invariant 0 <= i <= SLOTS && 1 <= start < SLOTS && next == Cursor(start, i) && 1 <= next < SLOTS
        invariant owners == old(owners)
        invariant forall j :: 0 <= j < i ==> Taken(owners, hostPid, Cursor(start, j))
      {
        var n := next;
        CursorMoves(start, i);
        if i + 1 < SLOTS { CursorMoves(start, i + 1); }
        next := next % (SLOTS - 1) + 1;
        if Base(hostPid) + n !in owners {
          PidFits(hostPid, n);
          assert !Taken(owners, hostPid, n);
          owners := owners[Base(hostPid) + n := k];
          return Base(hostPid) + n, i;
        }
        i := i + 1;
      }
      forall n | 1 <= n < SLOTS ensures Taken(owners, hostPid, n) {
        CursorReaches(start, n);
      }
      return 0, 0;
    }

    method Free(pid: int)
      requires Valid()
      modifies this`owners
      ensures Valid() && owners == old(owners) - {pid}
    {
      owners := owners - {pid};
    }
  }
}
