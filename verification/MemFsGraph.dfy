/**
 The namespace of the in-memory filesystem as a graph of nodes: the
 well-formedness every operation keeps, parent chains, and walks along
 directory entries.
 */
module MemFsGraph {
  import opened Common

  /** A node's address. */
  type Id = nat

  datatype Node =
    | Dir(entries: map<string, Id>, parent: Id)
    | File(data: seq<bv8>)

  type Heap = map<Id, Node>

  predicate IsDir(h: Heap, x: Id) {
    x in h && h[x].Dir?
  }

  /** A path component that names an entry, rather than "", "." or "..". */
  predicate Normal(c: string) {
    c != "" && c != "." && c != ".." && '/' !in c
  }

  // ---- parent chains ----

  /** x reaches root in at most k parent steps. */
  predicate Chain(h: Heap, root: Id, x: Id, k: nat)
    decreases k
  {
    x == root || (k > 0 && IsDir(h, x) && Chain(h, root, h[x].parent, k - 1))
  }

  ghost predicate Grounded(h: Heap, root: Id, x: Id) {
    exists k: nat :: Chain(h, root, x, k)
  }

  /** a is met within k parent steps when climbing from x towards root. */
  predicate Above(h: Heap, root: Id, a: Id, x: Id, k: nat)
    decreases k
  {
    x == a || (x != root && k > 0 && IsDir(h, x) && Above(h, root, a, h[x].parent, k - 1))
  }

  /** a is x or one of its ancestors. */
  ghost predicate Ancestor(h: Heap, root: Id, a: Id, x: Id) {
    exists k: nat :: Above(h, root, a, x, k)
  }

  lemma {:induction false} ChainMore(h: Heap, root: Id, x: Id, k: nat, k': nat)
    requires Chain(h, root, x, k) && k <= k'
    ensures Chain(h, root, x, k')
    decreases k
  {
    if x != root {
      ChainMore(h, root, h[x].parent, k - 1, k' - 1);
    }
  }

  /** Changes that leave every directory's parent alone leave chains alone. */
  lemma {:induction false} ChainFrame(h: Heap, h': Heap, root: Id, x: Id, k: nat)
    requires Chain(h, root, x, k)
    requires forall d :: IsDir(h, d) ==> IsDir(h', d) && h'[d].parent == h[d].parent
    ensures Chain(h', root, x, k)
    decreases k
  {
    if x != root {
      ChainFrame(h, h', root, h[x].parent, k - 1);
    }
  }

  /** Moving n does not touch the chain of a node that n is not above. */
  lemma {:induction false} ChainAvoids(h: Heap, h': Heap, root: Id, n: Id, x: Id, k: nat)
    requires Chain(h, root, x, k) && !Ancestor(h, root, n, x)
    requires forall d :: IsDir(h, d) && d != n ==> IsDir(h', d) && h'[d].parent == h[d].parent
    ensures Chain(h', root, x, k)
    decreases k
  {
    if x != root {
      assert Above(h, root, n, n, 0);
      forall j: nat ensures !Above(h, root, n, h[x].parent, j) {
        assert !Above(h, root, n, x, j + 1);
      }
      ChainAvoids(h, h', root, n, h[x].parent, k - 1);
    }
  }

  /** After n moves under nd, a chain goes to n as before and on through nd. */
  lemma {:induction false} ChainMoved(h: Heap, h': Heap, root: Id, n: Id, nd: Id, x: Id, k: nat, kn: nat)
    requires Chain(h, root, x, k) && Chain(h', root, nd, kn)
    requires IsDir(h', n) && h'[n].parent == nd
    requires forall d :: IsDir(h, d) && d != n ==> IsDir(h', d) && h'[d].parent == h[d].parent
    ensures Chain(h', root, x, k + 1 + kn)
    decreases k
  {
    if x == root {
    } else if x == n {
      assert Chain(h', root, n, kn + 1);
      ChainMore(h', root, n, kn + 1, k + 1 + kn);
    } else {
      ChainMoved(h, h', root, n, nd, h[x].parent, k - 1, kn);
    }
  }

  /** What is above x is also below the parent of that node. */
  lemma {:induction false} AboveParent(h: Heap, root: Id, c: Id, x: Id, k: nat)
    requires Above(h, root, c, x, k) && c != root && IsDir(h, c)
    ensures Above(h, root, h[c].parent, x, k + 1)
    decreases k
  {
    if x == c {
      assert Above(h, root, h[c].parent, h[c].parent, 0);
      assert Above(h, root, h[c].parent, x, 1);
      AboveMore(h, root, h[c].parent, x, 1, k + 1);
    } else {
      AboveParent(h, root, c, h[x].parent, k - 1);
    }
  }

  lemma {:induction false} AboveMore(h: Heap, root: Id, a: Id, x: Id, k: nat, k': nat)
    requires Above(h, root, a, x, k) && k <= k'
    ensures Above(h, root, a, x, k')
    decreases k
  {
    if x != a {
      AboveMore(h, root, a, h[x].parent, k - 1, k' - 1);
    }
  }

  /** An ancestor's chain is no longer than its descendant's. */
  lemma {:induction false} AboveChain(h: Heap, root: Id, a: Id, x: Id, j: nat, k: nat)
    requires Above(h, root, a, x, j) && Chain(h, root, x, k)
    ensures Chain(h, root, a, k)
    decreases j
  {
    if x != a {
      AboveChain(h, root, a, h[x].parent, j - 1, k - 1);
      ChainMore(h, root, a, k - 1, k);
    }
  }

  /** Chains have no cycle: a directory is not above its own parent. */
  lemma {:induction false} NotAboveParent(h: Heap, root: Id, c: Id, j: nat, k: nat)
    requires c != root && IsDir(h, c) && Chain(h, root, h[c].parent, k)
    ensures !Above(h, root, c, h[c].parent, j)
    decreases k
  {
    if Above(h, root, c, h[c].parent, j) {
      AboveChain(h, root, c, h[c].parent, j, k);
      NotAboveParent(h, root, c, j, k - 1);
    }
  }

  // ---- well-formedness ----

  /** d's part of the invariant; dom is the set of the filesystem's nodes, removed ones included. */
  ghost predicate DirOk(h: Heap, dom: set<Id>, root: Id, d: Id)
    requires IsDir(h, d)
  {
    && h[d].parent in dom && IsDir(h, h[d].parent)
    && Grounded(h, root, d)
    && forall nm :: nm in h[d].entries ==> EntryOk(h, dom, root, d, nm)
  }

  /** An entry of d; a directory has it as its only entry and d as its parent. */
  ghost predicate EntryOk(h: Heap, dom: set<Id>, root: Id, d: Id, nm: string)
    requires IsDir(h, d) && nm in h[d].entries
  {
    var c := h[d].entries[nm];
    && Normal(nm) && c in dom && c in h
    && (h[c].Dir? ==>
          && c != root && h[c].parent == d
          && forall nm' :: nm' in h[d].entries && h[d].entries[nm'] == c ==> nm' == nm)
  }

  ghost predicate WF(h: Heap, dom: set<Id>, root: Id) {
    && root in dom && dom <= h.Keys
    && IsDir(h, root) && h[root].parent == root
    && forall d :: d in dom && IsDir(h, d) ==> DirOk(h, dom, root, d)
  }

  /** The entry nm of d denotes c. */
  predicate Edge(h: Heap, d: Id, nm: string, c: Id) {
    IsDir(h, d) && nm in h[d].entries && h[d].entries[nm] == c
  }

  /** What well-formedness says of directories: at most one entry, and it is in the parent. */
  lemma DirectoryHasOneEntry(h: Heap, dom: set<Id>, root: Id, c: Id,
                             d1: Id, nm1: string, d2: Id, nm2: string)
    requires WF(h, dom, root) && d1 in dom && d2 in dom && IsDir(h, c)
    requires Edge(h, d1, nm1, c) && Edge(h, d2, nm2, c)
    ensures d1 == d2 == h[c].parent && nm1 == nm2 && c != root
  {
    assert DirOk(h, dom, root, d1) && DirOk(h, dom, root, d2);
    assert EntryOk(h, dom, root, d1, nm1) && EntryOk(h, dom, root, d2, nm2);
  }

  // ---- elementary changes ----

  function RemoveEntry(h: Heap, d: Id, nm: string): Heap
    requires IsDir(h, d)
  {
    h[d := h[d].(entries := h[d].entries - {nm})]
  }

  function AddEntry(h: Heap, d: Id, nm: string, c: Id): Heap
    requires IsDir(h, d)
  {
    h[d := h[d].(entries := h[d].entries[nm := c])]
  }

  function SetParent(h: Heap, n: Id, p: Id): Heap
    requires IsDir(h, n)
  {
    h[n := h[n].(parent := p)]
  }

  lemma GroundedFrame(h: Heap, h': Heap, root: Id, x: Id)
    requires Grounded(h, root, x)
    requires forall d :: IsDir(h, d) ==> IsDir(h', d) && h'[d].parent == h[d].parent
    ensures Grounded(h', root, x)
  {
    var k: nat :| Chain(h, root, x, k);
    ChainFrame(h, h', root, x, k);
  }

  lemma RemoveEntryWF(h: Heap, dom: set<Id>, root: Id, d: Id, nm: string)
    requires WF(h, dom, root) && d in dom && IsDir(h, d)
    ensures WF(RemoveEntry(h, d, nm), dom, root)
  {
    var h' := RemoveEntry(h, d, nm);
    forall x | x in dom && IsDir(h', x) ensures DirOk(h', dom, root, x) {
      assert DirOk(h, dom, root, x);
      GroundedFrame(h, h', root, x);
      forall m | m in h'[x].entries ensures EntryOk(h', dom, root, x, m) {
        assert EntryOk(h, dom, root, x, m);
      }
    }
  }

  /** A new or existing regular file may be entered anywhere. */
  lemma AddFileWF(h: Heap, dom: set<Id>, root: Id, d: Id, nm: string, c: Id)
    requires WF(h, dom, root) && d in dom && IsDir(h, d) && Normal(nm)
    requires c in dom && h[c].File?
    ensures WF(AddEntry(h, d, nm, c), dom, root)
  {
    var h' := AddEntry(h, d, nm, c);
    forall x | x in dom && IsDir(h', x) ensures DirOk(h', dom, root, x) {
      assert DirOk(h, dom, root, x);
      GroundedFrame(h, h', root, x);
      forall m | m in h'[x].entries ensures EntryOk(h', dom, root, x, m) {
        assert m in h[x].entries ==> EntryOk(h, dom, root, x, m);
      }
    }
  }

  /** No entry of any directory denotes n. */
  ghost predicate Detached(h: Heap, dom: set<Id>, n: Id) {
    forall d, nm :: d in dom && IsDir(h, d) && nm in h[d].entries ==> h[d].entries[nm] != n
  }

  lemma AttachGrounded(h: Heap, root: Id, n: Id, d: Id, nm: string, x: Id)
    requires IsDir(h, d) && IsDir(h, n) && n != root && !Ancestor(h, root, n, d) && Grounded(h, root, d)
    requires Grounded(h, root, x)
    ensures Grounded(AddEntry(SetParent(h, n, d), d, nm, n), root, x)
  {
    var h' := AddEntry(SetParent(h, n, d), d, nm, n);
    assert Above(h, root, n, n, 0);
    var kd: nat :| Chain(h, root, d, kd);
    ChainAvoids(h, h', root, n, d, kd);
    var k: nat :| Chain(h, root, x, k);
    ChainMoved(h, h', root, n, d, x, k, kd);
  }

  lemma AttachDirOk(h: Heap, dom: set<Id>, root: Id, n: Id, d: Id, nm: string, x: Id)
    requires WF(h, dom, root) && d in dom && IsDir(h, d) && Normal(nm) && n != d
    requires n in dom && IsDir(h, n) && n != root && Detached(h, dom, n) && !Ancestor(h, root, n, d)
    requires x in dom && IsDir(h, x) && DirOk(h, dom, root, d) && DirOk(h, dom, root, x)
    ensures DirOk(AddEntry(SetParent(h, n, d), d, nm, n), dom, root, x)
  {
    hide WF, Grounded, Ancestor, EntryOk, Detached;
    var h' := AddEntry(SetParent(h, n, d), d, nm, n);
    AttachGrounded(h, root, n, d, nm, x);
    forall m | m in h'[x].entries ensures EntryOk(h', dom, root, x, m) {
      AttachEntryOk(h, dom, root, n, d, nm, x, m);
    }
  }

  /** A detached directory may be attached below any directory it is not above. */
  lemma AttachDirWF(h: Heap, dom: set<Id>, root: Id, n: Id, d: Id, nm: string)
    requires WF(h, dom, root) && d in dom && IsDir(h, d) && Normal(nm)
    requires n in dom && IsDir(h, n) && n != root && Detached(h, dom, n)
    requires !Ancestor(h, root, n, d)
    ensures WF(AddEntry(SetParent(h, n, d), d, nm, n), dom, root)
  {
    hide DirOk, Ancestor, Detached;
    NotOwnAncestor(h, root, n, d);
    var h' := AddEntry(SetParent(h, n, d), d, nm, n);
    forall x | x in dom && IsDir(h', x) ensures DirOk(h', dom, root, x) {
      AttachDirOk(h, dom, root, n, d, nm, x);
    }
  }

  lemma NotOwnAncestor(h: Heap, root: Id, n: Id, d: Id)
    requires !Ancestor(h, root, n, d)
    ensures n != d
  {
    assert Above(h, root, n, n, 0);
  }

  lemma AttachEntryOk(h: Heap, dom: set<Id>, root: Id, n: Id, d: Id, nm: string, x: Id, m: string)
    requires WF(h, dom, root) && d in dom && IsDir(h, d) && Normal(nm)
    requires n in dom && IsDir(h, n) && n != root && n != d && Detached(h, dom, n)
    requires x in dom && IsDir(h, x) && (m in h[x].entries || (x == d && m == nm))
    ensures EntryOk(AddEntry(SetParent(h, n, d), d, nm, n), dom, root, x, m)
  {
    if !(x == d && m == nm) {
      assert DirOk(h, dom, root, x) && EntryOk(h, dom, root, x, m);
    }
  }

  /** Nodes outside the filesystem, and regular files' contents, play no part. */
  lemma FrameWF(h: Heap, h': Heap, dom: set<Id>, root: Id)
    requires WF(h, dom, root) && dom <= h'.Keys
    requires forall x :: x in dom ==>
      if h[x].Dir? then h'[x] == h[x] else h'[x].File?
    ensures WF(h', dom, root)
  {
    forall x | x in dom && IsDir(h', x) ensures DirOk(h', dom, root, x) {
      assert DirOk(h, dom, root, x);
      var k: nat :| Chain(h, root, x, k);
      ChainWithin(h, h', dom, root, x, k);
      forall m | m in h'[x].entries ensures EntryOk(h', dom, root, x, m) {
        assert EntryOk(h, dom, root, x, m);
      }
    }
  }

  lemma {:induction false} ChainWithin(h: Heap, h': Heap, dom: set<Id>, root: Id, x: Id, k: nat)
    requires WF(h, dom, root) && x in dom && Chain(h, root, x, k)
    requires forall d :: d in dom && IsDir(h, d) ==> IsDir(h', d) && h'[d].parent == h[d].parent
    ensures Chain(h', root, x, k)
    decreases k
  {
    if x != root {
      assert DirOk(h, dom, root, x);
      ChainWithin(h, h', dom, root, h[x].parent, k - 1);
    }
  }

  /** A fresh node joins the filesystem before anything refers to it. */
  lemma AllocateWF(h: Heap, dom: set<Id>, root: Id, id: Id, node: Node)
    requires WF(h, dom, root) && id !in h
    requires node.Dir? ==> node.entries == map[] && node.parent in dom && IsDir(h, node.parent)
    ensures WF(h[id := node], dom + {id}, root)
    ensures Detached(h[id := node], dom + {id}, id)
  {
    var h' := h[id := node];
    FrameWF(h, h', dom, root);
    forall x | x in dom && IsDir(h, x) ensures DirOk(h', dom + {id}, root, x) {
      assert DirOk(h, dom, root, x) && DirOk(h', dom, root, x);
      forall m | m in h'[x].entries ensures EntryOk(h', dom + {id}, root, x, m) {
        assert EntryOk(h', dom, root, x, m) && EntryOk(h, dom, root, x, m);
      }
    }
    if node.Dir? {
      assert DirOk(h', dom, root, node.parent);
      var k: nat :| Chain(h', root, node.parent, k);
      assert Chain(h', root, id, k + 1);
      assert DirOk(h', dom + {id}, root, id);
    }
  }

  // ---- walks along entries ----

  /** Follows plain names down from s. */
  function Walk(h: Heap, s: Id, q: seq<string>): Option<Id>
    decreases |q|
  {
    if q == [] then Some(s)
    else if IsDir(h, s) && q[0] in h[s].entries then Walk(h, h[s].entries[q[0]], q[1..])
    else None
  }

  /** The walk from s along q comes to look up nm in d. */
  predicate Passes(h: Heap, s: Id, q: seq<string>, d: Id, nm: string)
    decreases |q|
  {
    q != [] &&
    ((s == d && q[0] == nm) ||
     (IsDir(h, s) && q[0] in h[s].entries && Passes(h, h[s].entries[q[0]], q[1..], d, nm)))
  }

  /** A walk that looks up nm in d and arrives at x goes on from that entry to x. */
  lemma {:induction false} PassesThrough(h: Heap, s: Id, q: seq<string>, d: Id, nm: string, x: Id)
    returns (rest: seq<string>)
    requires Passes(h, s, q, d, nm) && Walk(h, s, q) == Some(x)
    ensures IsDir(h, d) && nm in h[d].entries && Walk(h, h[d].entries[nm], rest) == Some(x)
    decreases |q|
  {
    if s == d && q[0] == nm {
      rest := q[1..];
    } else {
      rest := PassesThrough(h, h[s].entries[q[0]], q[1..], d, nm, x);
    }
  }

  /** Walking down from s to a directory makes s its ancestor. */
  lemma {:induction false} WalkAncestor(h: Heap, dom: set<Id>, root: Id, s: Id, q: seq<string>, x: Id)
    requires WF(h, dom, root) && s in dom && IsDir(h, x)
    requires Walk(h, s, q) == Some(x)
    ensures Ancestor(h, root, s, x)
    decreases |q|
  {
    if q == [] {
      assert Above(h, root, s, x, 0);
    } else {
      var c := h[s].entries[q[0]];
      assert DirOk(h, dom, root, s) && EntryOk(h, dom, root, s, q[0]);
      WalkAncestor(h, dom, root, c, q[1..], x);
      var k: nat :| Above(h, root, c, x, k);
      assert IsDir(h, c);
      AboveParent(h, root, c, x, k);
    }
  }
}
