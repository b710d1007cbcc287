/**
 Names as resolve takes them, with ".." and every error: what a rename and a copy do to where
 they lead.
 */
module MemFsPaths {
  import opened Common
  import opened MemFsGraph
  import opened MemFsOps
  import opened MemFsTheorems
  import opened MemFsClone

  // ---- how a climb goes ----

  /** Where the component p leads from cur; None if the climb ends here, with an error or a crash. */
  function Next(h: Heap, root: Id, cur: Id, p: string): Option<Id> {
    if p == "" || p == "." then Some(cur)
    else if !IsDir(h, cur) then None
    else if p == ".." then (if cur == root then None else Some(h[cur].parent))
    else if p in h[cur].entries then Some(h[cur].entries[p])
    else None
  }

  predicate IsName(p: string) {
    p != "" && p != "." && p != ".."
  }

  /** The climb comes to look up nm in d. */
  predicate Looks(h: Heap, root: Id, cur: Id, parts: seq<string>, d: Id, nm: string)
    decreases |parts|
  {
    parts != [] &&
    ((cur == d && parts[0] == nm && IsName(nm)) ||
     (Next(h, root, cur, parts[0]).Some? && Looks(h, root, Next(h, root, cur, parts[0]).value, parts[1..], d, nm)))
  }

  /** The climb comes to take ".." at d. */
  predicate Leaves(h: Heap, root: Id, cur: Id, parts: seq<string>, d: Id)
    decreases |parts|
  {
    parts != [] &&
    ((cur == d && parts[0] == "..") ||
     (Next(h, root, cur, parts[0]).Some? && Leaves(h, root, Next(h, root, cur, parts[0]).value, parts[1..], d)))
  }

  lemma ClimbNext(h: Heap, root: Id, cur: Id, parts: seq<string>)
    requires parts != [] && Next(h, root, cur, parts[0]).Some?
    ensures Climb(h, root, cur, parts) == Climb(h, root, Next(h, root, cur, parts[0]).value, parts[1..])
  {
  }

  /** A climb in two parts. */
  lemma {:induction false} ClimbConcat(h: Heap, root: Id, cur: Id, p: seq<string>, q: seq<string>)
    ensures Climb(h, root, cur, p + q) ==
            (match Climb(h, root, cur, p) case Ok(x) => Climb(h, root, x, q) case Err(e) => Err(e) case Crash => Crash)
    decreases |p|
  {
    if p == [] {
      assert p + q == q;
    } else {
      assert (p + q)[0] == p[0] && (p + q)[1..] == p[1..] + q;
      var next := Next(h, root, cur, p[0]);
      if next.Some? {
        ClimbNext(h, root, cur, p);
        ClimbNext(h, root, cur, p + q);
        ClimbConcat(h, root, next.value, p[1..], q);
      }
    }
  }

  // ---- a copy ----

  /** A result in the original, and the same in the copy. */
  function Image(m: map<Id, Id>, r: Res<Id>): Res<Id> {
    match r
    case Ok(x) => if x in m then Ok(m[x]) else Crash
    case Err(e) => Err(e)
    case Crash => Crash
  }

  /** Every climb leads in the copy to the copy of where it leads in the original, or fails alike. */
  lemma {:induction false} CopyClimb(h: Heap, h': Heap, m: map<Id, Id>, root: Id, s: Id, parts: seq<string>)
    requires Iso(h, h', m, root) && s in m
    ensures Climb(h, root, s, parts).Ok? ==> Climb(h, root, s, parts).value in m
    ensures Climb(h', m[root], m[s], parts) == Image(m, Climb(h, root, s, parts))
    decreases |parts|
  {
    if parts != [] {
      var next := Next(h, root, s, parts[0]);
      if next.Some? {
        assert next.value in m && Next(h', m[root], m[s], parts[0]) == Some(m[next.value]);
        ClimbNext(h, root, s, parts);
        ClimbNext(h', m[root], m[s], parts);
        CopyClimb(h, h', m, root, next.value, parts[1..]);
      }
    }
  }

  /**
   Every name resolves in the copy as in the original: to the copy of the same node, of equal kind
   and contents, or with the same error, or with a crash.
   */
  lemma CopyResolve(h: Heap, h': Heap, m: map<Id, Id>, root: Id, dir: Id, name: string, parentOnly: bool)
    requires Iso(h, h', m, root) && dir in m
    ensures match Resolve(h, root, dir, name, parentOnly)
            case Err(e) => Resolve(h', m[root], m[dir], name, parentOnly) == Err(e)
            case Crash => Resolve(h', m[root], m[dir], name, parentOnly) == Crash
            case Ok(Place(x, base)) =>
              && x in m && Resolve(h', m[root], m[dir], name, parentOnly) == Ok(Place(m[x], base))
              && x in h && m[x] in h' && h'[m[x]].Dir? == h[x].Dir? && (h[x].File? ==> h'[m[x]].data == h[x].data)
  {
    var all := if parentOnly then StripEmpty(Split(name)) else Split(name);
    CopyClimb(h, h', m, root, dir, if parentOnly then all[..|all| - 1] else all);
  }

  /** Two names lead to one node in the copy exactly when they do in the original. */
  lemma CopyKeepsHardLinks(h: Heap, h': Heap, m: map<Id, Id>, root: Id, d1: Id, name1: string, d2: Id, name2: string)
    requires Iso(h, h', m, root) && d1 in m && d2 in m
    requires Resolve(h, root, d1, name1, false).Ok? && Resolve(h, root, d2, name2, false).Ok?
    ensures Resolve(h', m[root], m[d1], name1, false).Ok? && Resolve(h', m[root], m[d2], name2, false).Ok?
    ensures Resolve(h', m[root], m[d1], name1, false).value.node ==
            Resolve(h', m[root], m[d2], name2, false).value.node <==>
            Resolve(h, root, d1, name1, false).value.node == Resolve(h, root, d2, name2, false).value.node
  {
    hide Resolve;
    CopyResolve(h, h', m, root, d1, name1, false);
    CopyResolve(h, h', m, root, d2, name2, false);
  }

  // ---- a rename ----

  /** The climb meets nothing that the rename of n changes: neither entry, nor n's way up. */
  predicate Avoids(h: Heap, root: Id, cur: Id, parts: seq<string>, e: Ends, n: Id) {
    && !Looks(h, root, cur, parts, e.od, e.ob) && !Looks(h, root, cur, parts, e.nd, e.nb)
    && !Leaves(h, root, cur, parts, n)
  }

  /** Such a climb is as before. */
  lemma {:induction false} ClimbUnmoved(h: Heap, root: Id, e: Ends, n: Id, cur: Id, parts: seq<string>)
    requires IsDir(h, e.od) && IsDir(h, e.nd) && Normal(e.ob) && Normal(e.nb) && Avoids(h, root, cur, parts, e, n)
    ensures Climb(Moved(h, e, n), root, cur, parts) == Climb(h, root, cur, parts)
    decreases |parts|
  {
    if parts != [] {
      var next := Next(h, root, cur, parts[0]);
      assert Next(Moved(h, e, n), root, cur, parts[0]) == next;
      if next.Some? {
        ClimbNext(h, root, cur, parts);
        ClimbNext(Moved(h, e, n), root, cur, parts);
        ClimbUnmoved(h, root, e, n, next.value, parts[1..]);
      }
    }
  }

  /** x is at or below n, as far as a climb can tell. */
  ghost predicate Below(h: Heap, root: Id, n: Id, x: Id) {
    IsDir(h, x) ==> Ancestor(h, root, n, x)
  }

  lemma NextBelow(h: Heap, dom: set<Id>, root: Id, n: Id, cur: Id, p: string)
    requires WF(h, dom, root) && cur in dom && Below(h, root, n, cur) && n != root
    requires Next(h, root, cur, p).Some? && !(cur == n && p == "..")
    ensures Next(h, root, cur, p).value in dom && Below(h, root, n, Next(h, root, cur, p).value)
  {
    var x := Next(h, root, cur, p).value;
    if IsDir(h, cur) {
      assert DirOk(h, dom, root, cur);
      var k: nat :| Above(h, root, n, cur, k);
      if p == ".." {
        assert Above(h, root, n, x, k - 1);
      } else if IsName(p) {
        assert EntryOk(h, dom, root, cur, p);
        if IsDir(h, x) {
          assert Above(h, root, n, x, k + 1);
        }
      }
    }
  }

  /** A climb that stays at or below the moved node meets neither entry. */
  lemma {:induction false} BelowLooks(h: Heap, dom: set<Id>, root: Id, e: Ends, n: Id, cur: Id, q: seq<string>)
    requires Moves(h, dom, root, e, n) && n != root && cur in dom && Below(h, root, n, cur)
    requires !Leaves(h, root, cur, q, n)
    requires !Below(h, root, n, e.od) && !Below(h, root, n, e.nd)
    ensures Avoids(h, root, cur, q, e, n)
    decreases |q|
  {
    if q != [] {
      var next := Next(h, root, cur, q[0]);
      if next.Some? {
        NextBelow(h, dom, root, n, cur, q[0]);
        BelowLooks(h, dom, root, e, n, next.value, q[1..]);
      }
    }
  }

  lemma EndsNotBelow(h: Heap, dom: set<Id>, root: Id, e: Ends, n: Id)
    requires Moves(h, dom, root, e, n)
    ensures n in dom && n in h && n != root && Below(h, root, n, n)
    ensures !Below(h, root, n, e.od) && !Below(h, root, n, e.nd)
  {
    assert DirOk(h, dom, root, e.od) && EntryOk(h, dom, root, e.od, e.ob);
    assert Above(h, root, n, n, 0);
    if IsDir(h, n) {
      if Ancestor(h, root, n, e.od) {
        var j: nat :| Above(h, root, n, e.od, j);
        var k: nat :| Chain(h, root, e.od, k);
        NotAboveParent(h, root, n, j, k);
      }
    } else {
      forall x, k: nat | x in dom && IsDir(h, x) ensures !Above(h, root, n, x, k) {
        if Above(h, root, n, x, k) { AboveIsDir(h, dom, root, n, x, k); }
      }
    }
  }

  /** Only a directory is above a directory. */
  lemma {:induction false} AboveIsDir(h: Heap, dom: set<Id>, root: Id, a: Id, x: Id, k: nat)
    requires Above(h, root, a, x, k) && x in dom && IsDir(h, x) && WF(h, dom, root)
    ensures IsDir(h, a)
    decreases k
  {
    if x != a {
      assert DirOk(h, dom, root, x);
      AboveIsDir(h, dom, root, a, h[x].parent, k - 1);
    }
  }

  /** Below n, by any climb that does not leave it, everything is as before. */
  lemma ClimbBelow(h: Heap, dom: set<Id>, root: Id, e: Ends, n: Id, q: seq<string>)
    requires Moves(h, dom, root, e, n) && !Leaves(h, root, n, q, n)
    ensures Climb(Moved(h, e, n), root, n, q) == Climb(h, root, n, q)
  {
    EndsNotBelow(h, dom, root, e, n);
    BelowLooks(h, dom, root, e, n, n, q);
    ClimbUnmoved(h, root, e, n, n, q);
  }

  /** A climb to d, then the name nm of c in it, then on from c. */
  lemma ClimbEdge(h: Heap, root: Id, s: Id, p: seq<string>, d: Id, nm: string, c: Id, q: seq<string>)
    requires Climb(h, root, s, p) == Ok(d) && Edge(h, d, nm, c) && IsName(nm)
    ensures Climb(h, root, s, p + [nm] + q) == Climb(h, root, c, q)
  {
    assert p + [nm] + q == p + ([nm] + q) && ([nm] + q)[1..] == q;
    ClimbConcat(h, root, s, p, [nm] + q);
  }

  lemma ClimbNoEdge(h: Heap, root: Id, s: Id, p: seq<string>, d: Id, nm: string, q: seq<string>)
    requires Climb(h, root, s, p) == Ok(d) && IsDir(h, d) && nm !in h[d].entries && IsName(nm)
    ensures Climb(h, root, s, p + [nm] + q) == Err(ENOENT)
  {
    assert p + [nm] + q == p + ([nm] + q);
    ClimbConcat(h, root, s, p, [nm] + q);
  }

  /**
   Every path under the new name leads where the matching path under the old name led, with the same
   error if that failed; every path under the old name is gone. The ways to the two directories may
   climb, as long as they do not go through what the rename changes, and so may the path below, as
   long as it does not leave the moved node.
   */
  lemma RenameMovesClimbs(h: Heap, dom: set<Id>, root: Id, e: Ends, n: Id,
                          s: Id, po: seq<string>, s': Id, pn: seq<string>, q: seq<string>)
    requires Moves(h, dom, root, e, n)
    requires Climb(h, root, s, po) == Ok(e.od) && Avoids(h, root, s, po, e, n)
    requires Climb(h, root, s', pn) == Ok(e.nd) && Avoids(h, root, s', pn, e, n)
    ensures !Leaves(h, root, n, q, n) ==>
              Climb(Moved(h, e, n), root, s', pn + [e.nb] + q) == Climb(h, root, s, po + [e.ob] + q)
    ensures Climb(Moved(h, e, n), root, s, po + [e.ob] + q) == Err(ENOENT)
  {
    hide WF, Climb, Moved, HasRoom;
    ClimbUnmoved(h, root, e, n, s, po);
    ClimbUnmoved(h, root, e, n, s', pn);
    MovedEntries(h, e, n);
    ClimbNoEdge(Moved(h, e, n), root, s, po, e.od, e.ob, q);
    if !Leaves(h, root, n, q, n) {
      ClimbEdge(Moved(h, e, n), root, s', pn, e.nd, e.nb, n, q);
      ClimbEdge(h, root, s, po, e.od, e.ob, n, q);
      ClimbBelow(h, dom, root, e, n, q);
    }
  }

  /** The place where a climb first meets what the rename changes. */
  lemma {:induction false} FirstMeeting(h: Heap, root: Id, e: Ends, n: Id, cur: Id, parts: seq<string>)
    returns (i: nat, x: Id)
    requires IsDir(h, e.od) && IsDir(h, e.nd) && Normal(e.ob) && Normal(e.nb) && !Avoids(h, root, cur, parts, e, n)
    ensures i < |parts| && Avoids(h, root, cur, parts[..i], e, n) && Climb(h, root, cur, parts[..i]) == Ok(x)
    ensures (x == e.od && parts[i] == e.ob) || (x == e.nd && parts[i] == e.nb) || (x == n && parts[i] == "..")
    decreases |parts|
  {
    if (cur == e.od && parts[0] == e.ob) || (cur == e.nd && parts[0] == e.nb) || (cur == n && parts[0] == "..") {
      i, x := 0, cur;
      assert parts[..0] == [];
    } else {
      var next := Next(h, root, cur, parts[0]).value;
      var j;
      j, x := FirstMeeting(h, root, e, n, next, parts[1..]);
      i := j + 1;
      assert parts[..i][0] == parts[0] && parts[..i][1..] == parts[1..][..j];
      ClimbNext(h, root, cur, parts[..i]);
    }
  }

  /**
   What a rename does to any climb whatever: one that avoids what changes is as before. Any other is
   as before up to where it first meets it; then the old entry is missing, the new one leads to the
   moved node, and the moved node's ".." to its new parent.
   */
  lemma RenameOfAnyClimb(h: Heap, dom: set<Id>, root: Id, e: Ends, n: Id, cur: Id, parts: seq<string>)
    returns (i: nat, x: Id)
    requires Moves(h, dom, root, e, n)
    ensures Avoids(h, root, cur, parts, e, n) ==> Climb(Moved(h, e, n), root, cur, parts) == Climb(h, root, cur, parts)
    ensures !Avoids(h, root, cur, parts, e, n) ==>
              && i < |parts| && Avoids(h, root, cur, parts[..i], e, n) && Climb(h, root, cur, parts[..i]) == Ok(x)
              && var r := Climb(Moved(h, e, n), root, cur, parts);
              || (x == e.od && parts[i] == e.ob && r == Err(ENOENT))
              || (x == e.nd && parts[i] == e.nb && r == Climb(Moved(h, e, n), root, n, parts[i + 1..]))
              || (x == n && parts[i] == ".." &&
                  r == if IsDir(h, n) then Climb(Moved(h, e, n), root, e.nd, parts[i + 1..]) else Crash)
  {
    i, x := 0, cur;
    if Avoids(h, root, cur, parts, e, n) {
      ClimbUnmoved(h, root, e, n, cur, parts);
    } else {
      i, x := FirstMeeting(h, root, e, n, cur, parts);
      ClimbUnmoved(h, root, e, n, cur, parts[..i]);
      EndsNotBelow(h, dom, root, e, n);
      MeetingOnward(h, root, e, n, cur, parts, i, x);
    }
  }

  lemma MeetingOnward(h: Heap, root: Id, e: Ends, n: Id, cur: Id, parts: seq<string>, i: nat, x: Id)
    requires IsDir(h, e.od) && IsDir(h, e.nd) && Normal(e.ob) && Normal(e.nb) && n in h && n != root
    requires Edge(h, e.od, e.ob, n) && !Edge(h, e.nd, e.nb, n)
    requires i < |parts| && Climb(Moved(h, e, n), root, cur, parts[..i]) == Ok(x)
    ensures var r := Climb(Moved(h, e, n), root, cur, parts);
            && (x == e.od && parts[i] == e.ob ==> r == Err(ENOENT))
            && (x == e.nd && parts[i] == e.nb ==> r == Climb(Moved(h, e, n), root, n, parts[i + 1..]))
            && (x == n && parts[i] == ".." ==>
                  r == if IsDir(h, n) then Climb(Moved(h, e, n), root, e.nd, parts[i + 1..]) else Crash)
  {
    MovedEntries(h, e, n);
    assert parts == parts[..i] + parts[i..] && parts[i..][0] == parts[i] && parts[i..][1..] == parts[i + 1..];
    ClimbConcat(Moved(h, e, n), root, cur, parts[..i], parts[i..]);
  }

  // ---- whole names ----

  /** The components resolve follows. */
  function Followed(name: string, parentOnly: bool): seq<string> {
    var all := if parentOnly then StripEmpty(Split(name)) else Split(name);
    if parentOnly then all[..|all| - 1] else all
  }

  /**
   Nothing else changes: a name that avoids what the rename changes resolves as before or fails as
   before, and contents, kinds, identities and all other parents stay.
   */
  lemma RenameKeepsTheRest(h: Heap, dom: set<Id>, root: Id, e: Ends, n: Id, dir: Id, name: string, parentOnly: bool)
    requires Moves(h, dom, root, e, n) && Avoids(h, root, dir, Followed(name, parentOnly), e, n)
    ensures Resolve(Moved(h, e, n), root, dir, name, parentOnly) == Resolve(h, root, dir, name, parentOnly)
    ensures Moved(h, e, n).Keys == h.Keys
    ensures forall x :: x in h ==> Moved(h, e, n)[x].Dir? == h[x].Dir?
    ensures forall x :: x in h && h[x].File? ==> Moved(h, e, n)[x] == h[x]
    ensures forall x :: IsDir(h, x) && x != n ==> Moved(h, e, n)[x].parent == h[x].parent
    ensures IsDir(h, n) ==> Moved(h, e, n)[n].parent == e.nd
  {
    hide WF, HasRoom;
    ClimbUnmoved(h, root, e, n, dir, Followed(name, parentOnly));
    assert forall x :: IsDir(Moved(h, e, n), x) <==> IsDir(h, x);
  }

  lemma {:induction false} LooksIsPasses(h: Heap, root: Id, cur: Id, parts: seq<string>, d: Id, nm: string)
    requires ".." !in parts && IsName(nm) && IsDir(h, d)
    ensures Looks(h, root, cur, parts, d, nm) <==> Passes(h, cur, Names(parts), d, nm)
    decreases |parts|
  {
    if parts != [] {
      var next := Next(h, root, cur, parts[0]);
      if IsName(parts[0]) {
        assert ([parts[0]] + Names(parts[1..]))[1..] == Names(parts[1..]);
      }
      if next.Some? {
        LooksIsPasses(h, root, next.value, parts[1..], d, nm);
      }
    }
  }

  lemma {:induction false} PlainStays(h: Heap, root: Id, cur: Id, parts: seq<string>, d: Id)
    requires ".." !in parts
    ensures !Leaves(h, root, cur, parts, d)
    decreases |parts|
  {
    if parts != [] && Next(h, root, cur, parts[0]).Some? {
      PlainStays(h, root, Next(h, root, cur, parts[0]).value, parts[1..], d);
    }
  }

  /** A way to either directory that does not climb avoids what the rename changes. */
  lemma PlainAvoids(h: Heap, dom: set<Id>, root: Id, e: Ends, n: Id, s: Id, p: seq<string>)
    requires Moves(h, dom, root, e, n) && s in dom && ".." !in p
    requires Climb(h, root, s, p) == Ok(e.od) || Climb(h, root, s, p) == Ok(e.nd)
    ensures Avoids(h, root, s, p, e, n)
  {
    ClimbIsWalk(h, root, s, p);
    PathAvoids(h, dom, root, e, n, s, Names(p), Climb(h, root, s, p).value);
    LooksIsPasses(h, root, s, p, e.od, e.ob);
    LooksIsPasses(h, root, s, p, e.nd, e.nb);
    PlainStays(h, root, s, p, n);
  }

  lemma {:induction false} SplitEnds(s: string)
    requires s != ""
    ensures HasSuffixSlash(s) <==> Split(s)[|Split(s)| - 1] == ""
    decreases |s|
  {
    if |s| > 1 {
      SplitEnds(s[1..]);
    } else {
      assert s[1..] == "";
    }
  }

  /** The theorem on names: the new one resolves to what the old one did, and the old one to nothing. */
  lemma RenameMovesNames(h: Heap, dom: set<Id>, root: Id, e: Ends, n: Id,
                         dir: Id, oldName: string, po: seq<string>,
                         dir': Id, newName: string, pn: seq<string>, q: seq<string>)
    requires Moves(h, dom, root, e, n)
    requires Climb(h, root, dir, po) == Ok(e.od) && Avoids(h, root, dir, po, e, n)
    requires Climb(h, root, dir', pn) == Ok(e.nd) && Avoids(h, root, dir', pn, e, n)
    requires !HasPrefixSlash(oldName) && Split(oldName) == po + [e.ob] + q
    requires !HasPrefixSlash(newName) && Split(newName) == pn + [e.nb] + q
    ensures !Leaves(h, root, n, q, n) ==>
              Resolve(Moved(h, e, n), root, dir', newName, false) == Resolve(h, root, dir, oldName, false)
    ensures Resolve(Moved(h, e, n), root, dir, oldName, false) == Err(ENOENT)
  {
    hide WF, HasRoom, Climb;
    RenameMovesClimbs(h, dom, root, e, n, dir, po, dir', pn, q);
    SplitEnds(oldName);
    SplitEnds(newName);
    assert forall x :: IsDir(Moved(h, e, n), x) <==> IsDir(h, x);
  }
}
