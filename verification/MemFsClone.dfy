/** What a copy of a filesystem is, and what follows from being one. */
module MemFsClone {
  import opened Common
  import opened MemFsGraph

  predicate Injective(m: map<Id, Id>) {
    forall x, y :: x in m && y in m && m[x] == m[y] ==> x == y
  }

  /** The children of x have copies, and the entries of x's copy are exactly theirs. */
  predicate EntriesCopied(h: Heap, h': Heap, m: map<Id, Id>, x: Id)
    requires IsDir(h, x) && x in m && IsDir(h', m[x])
  {
    && h'[m[x]].entries.Keys == h[x].entries.Keys
    && forall nm :: nm in h[x].entries ==>
         h[x].entries[nm] in m && h'[m[x]].entries[nm] == m[h[x].entries[nm]]
  }

  predicate ParentCopied(h: Heap, h': Heap, m: map<Id, Id>, x: Id)
    requires IsDir(h, x) && x in m && IsDir(h', m[x])
  {
    h[x].parent in m && h'[m[x]].parent == m[h[x].parent]
  }

  /** m maps the filesystem at root one to one onto a copy of it in h'. */
  ghost predicate Iso(h: Heap, h': Heap, m: map<Id, Id>, root: Id) {
    && root in m && Injective(m)
    && forall x :: x in m ==>
         && x in h && m[x] in h'
         && (h[x].File? ==> h'[m[x]] == h[x])
         && (h[x].Dir? ==> h'[m[x]].Dir? && EntriesCopied(h, h', m, x) && ParentCopied(h, h', m, x))
  }

  lemma {:induction false} CopyChain(h: Heap, h': Heap, m: map<Id, Id>, root: Id, x: Id, k: nat)
    requires Iso(h, h', m, root) && x in m && Chain(h, root, x, k)
    ensures Chain(h', m[root], m[x], k)
    decreases k
  {
    if x != root {
      CopyChain(h, h', m, root, h[x].parent, k - 1);
    }
  }

  /** The copy is a well-formed filesystem made of the images alone. */
  lemma CopyWF(h: Heap, h': Heap, m: map<Id, Id>, dom: set<Id>, root: Id)
    requires WF(h, dom, root) && m.Keys <= dom && Iso(h, h', m, root)
    ensures WF(h', m.Values, m[root])
  {
    forall y | y in m.Values && IsDir(h', y) ensures DirOk(h', m.Values, m[root], y) {
      var x :| x in m && m[x] == y;
      assert DirOk(h, dom, root, x);
      var k: nat :| Chain(h, root, x, k);
      CopyChain(h, h', m, root, x, k);
      forall nm | nm in h'[y].entries ensures EntryOk(h', m.Values, m[root], y, nm) {
        assert EntryOk(h, dom, root, x, nm);
      }
    }
  }

  // ---- a copy under way ----

  /**
   A copy under way in heap cur: open are the directories whose entries are still being copied,
   h is the heap the copy started from, and every copy is at base or above.
   */
  ghost predicate Copying(cur: Heap, h: Heap, base: Id, dom: set<Id>, root: Id, copies: map<Id, Id>, open: set<Id>) {
    && open <= copies.Keys <= dom <= h.Keys && Injective(copies)
    && (forall x :: x in h ==> x < base && x in cur && cur[x] == h[x])
    && forall x :: x in copies ==> CopyOk(cur, h, base, root, copies, open, x)
  }

  ghost predicate CopyOk(cur: Heap, h: Heap, base: Id, root: Id, copies: map<Id, Id>, open: set<Id>, x: Id)
    requires x in copies
  {
    && x in h && copies[x] in cur && base <= copies[x]
    && (h[x].File? ==> cur[copies[x]] == h[x])
    && (h[x].Dir? ==>
          && cur[copies[x]].Dir?
          && (x != root ==> ParentCopied(h, cur, copies, x))
          && (x !in open ==> EntriesCopied(h, cur, copies, x)))
  }

  lemma EmptyCopy(h: Heap, base: Id, dom: set<Id>, root: Id)
    requires WF(h, dom, root) && forall x :: x in h ==> x < base
    ensures Copying(h, h, base, dom, root, map[], {}) && root in dom && IsDir(h, root)
  {
  }

  lemma CopiesAllocated(cur: Heap, h: Heap, base: Id, dom: set<Id>, root: Id, copies: map<Id, Id>, open: set<Id>)
    requires Copying(cur, h, base, dom, root, copies, open)
    ensures open <= copies.Keys && forall x :: x in copies ==> copies[x] in cur && base <= copies[x]
    ensures forall x :: x in copies && x in h && h[x].Dir? ==> cur[copies[x]].Dir?
  {
    assert forall x :: x in copies ==> CopyOk(cur, h, base, root, copies, open, x);
  }

  /** A new node c stands for n, its entries still to be copied. */
  lemma StartCopy(cur: Heap, h: Heap, base: Id, dom: set<Id>, root: Id, copies: map<Id, Id>, open: set<Id>,
                  n: Id, c: Id, node: Node)
    requires Copying(cur, h, base, dom, root, copies, open)
    requires n in dom && n !in copies && c !in cur && base <= c
    requires h[n].File? ==> node == h[n]
    requires h[n].Dir? ==> node.Dir?
    requires h[n].Dir? && n != root ==> h[n].parent in copies && node.parent == copies[h[n].parent]
    ensures Copying(cur[c := node], h, base, dom, root, copies[n := c], if h[n].Dir? then open + {n} else open)
  {
    var cur', copies', open' := cur[c := node], copies[n := c], if h[n].Dir? then open + {n} else open;
    assert forall x :: x in copies ==> CopyOk(cur, h, base, root, copies, open, x);
    forall x | x in copies ensures CopyOk(cur', h, base, root, copies', open', x) {
      StillCopied(cur, h, base, root, copies, open, n, c, node, x);
    }
    assert CopyOk(cur', h, base, root, copies', open', n);
  }

  lemma StillCopied(cur: Heap, h: Heap, base: Id, root: Id, copies: map<Id, Id>, open: set<Id>,
                    n: Id, c: Id, node: Node, x: Id)
    requires x in copies && n !in copies && c !in cur && CopyOk(cur, h, base, root, copies, open, x)
    ensures CopyOk(cur[c := node], h, base, root, copies[n := c], open, x)
    ensures CopyOk(cur[c := node], h, base, root, copies[n := c], open + {n}, x)
  {
  }

  /** An entry is added to the copy of a directory that is open. */
  lemma AddToCopy(cur: Heap, h: Heap, base: Id, dom: set<Id>, root: Id, copies: map<Id, Id>, open: set<Id>,
                  n: Id, nm: string, child: Id)
    requires Copying(cur, h, base, dom, root, copies, open)
    requires n in open && IsDir(cur, copies[n])
    ensures Copying(AddEntry(cur, copies[n], nm, child), h, base, dom, root, copies, open)
  {
    var cur' := AddEntry(cur, copies[n], nm, child);
    assert CopyOk(cur, h, base, root, copies, open, n);
    forall x | x in copies ensures CopyOk(cur', h, base, root, copies, open, x) {
      assert CopyOk(cur, h, base, root, copies, open, x);
    }
  }

  /** A directory is done once its entries are copied. */
  lemma FinishCopy(cur: Heap, h: Heap, base: Id, dom: set<Id>, root: Id, copies: map<Id, Id>, open: set<Id>, n: Id)
    requires Copying(cur, h, base, dom, root, copies, open)
    requires n in open && IsDir(h, n) && IsDir(cur, copies[n]) && EntriesCopied(h, cur, copies, n)
    ensures Copying(cur, h, base, dom, root, copies, open - {n})
  {
    forall x | x in copies ensures CopyOk(cur, h, base, root, copies, open - {n}, x) {
      assert CopyOk(cur, h, base, root, copies, open, x);
    }
  }

  /** With nothing open, the copy is complete once the root's copy is its own parent. */
  lemma CompleteCopy(cur: Heap, h: Heap, base: Id, dom: set<Id>, root: Id, copies: map<Id, Id>)
    requires WF(h, dom, root) && Copying(cur, h, base, dom, root, copies, {})
    requires root in copies && IsDir(cur, copies[root])
    ensures var cur' := SetParent(cur, copies[root], copies[root]);
            && copies.Keys <= dom && Iso(h, cur', copies, root)
            && WF(cur', dom, root) && WF(cur', copies.Values, copies[root])
            && forall x :: x in h ==> x in cur' && cur'[x] == h[x]
  {
    var cur' := SetParent(cur, copies[root], copies[root]);
    assert CopyOk(cur, h, base, root, copies, {}, root);
    assert Iso(h, cur', copies, root) by {
      RootParentSet(cur, h, base, dom, root, copies);
    }
    FrameWF(h, cur', dom, root);
    CopyWF(h, cur', copies, dom, root);
  }

  lemma RootParentSet(cur: Heap, h: Heap, base: Id, dom: set<Id>, root: Id, copies: map<Id, Id>)
    requires Copying(cur, h, base, dom, root, copies, {})
    requires root in copies && IsDir(h, root) && h[root].parent == root && IsDir(cur, copies[root])
    ensures var cur' := SetParent(cur, copies[root], copies[root]); Iso(h, cur', copies, root)
  {
    var cur' := SetParent(cur, copies[root], copies[root]);
    forall x | x in copies
      ensures x in h && copies[x] in cur'
      ensures h[x].File? ==> cur'[copies[x]] == h[x]
      ensures h[x].Dir? ==>
                cur'[copies[x]].Dir? && EntriesCopied(h, cur', copies, x) && ParentCopied(h, cur', copies, x)
    {
      assert CopyOk(cur, h, base, root, copies, {}, x) && CopyOk(cur, h, base, root, copies, {}, root);
    }
  }
}
