/**
 The in-memory filesystem as objects: a memory of nodes that filesystems share,
 and a filesystem whose methods update it in place.
 */
module MemFs {
  import opened Common
  import opened MemFsGraph
  import Ops = MemFsOps
  import opened MemFsOps
  import Theorems = MemFsTheorems
  import opened MemFsClone
  import World = MemFsWorld
  import FileData

  /** The Go heap, as far as filesystem nodes are concerned. */
  class Memory {
    var heap: Heap
    var next: Id

    ghost predicate Valid()
      reads this
    {
      forall x :: x in heap ==> x < next
    }

    constructor ()
      ensures Valid() && heap == map[]
    {
      heap, next := map[], 0;
    }

    method Allocate(node: Node) returns (id: Id)
      requires Valid()
      modifies this
      ensures Valid() && old(id !in heap) && id == old(next)
      ensures heap == old(heap)[id := node] && next == id + 1
    {
      id := next;
      heap := heap[id := node];
      next := next + 1;
    }
  }

  class FS {
    const mem: Memory
    const root: Id
    ghost var dom: set<Id>

    ghost predicate Valid()
      reads this, mem
    {
      mem.Valid() && WF(mem.heap, dom, root)
    }

    /** New. */
    constructor (mem: Memory)
      requires mem.Valid()
      modifies mem
      ensures Valid() && this.mem == mem && root == old(mem.next) && dom == {root}
      ensures mem.heap == old(mem.heap)[root := Dir(map[], root)]
    {
      this.mem := mem;
      root := mem.next;
      dom := {mem.next};
      new;
      var id := mem.Allocate(Dir(map[], root));
      assert Chain(mem.heap, root, root, 0);
    }

    /** The filesystem of a copied root. */
    constructor Copied(mem: Memory, root: Id, ghost dom: set<Id>)
      requires mem.Valid() && WF(mem.heap, dom, root)
      ensures Valid() && this.mem == mem && this.root == root && this.dom == dom
    {
      this.mem := mem;
      this.root := root;
      this.dom := dom;
    }

    // ---- resolve ----

    method Resolve(dir: Id, name: string, parentOnly: bool) returns (r: Res<Place>)
      requires Valid() && dir in dom
      ensures r == Ops.Resolve(mem.heap, root, dir, name, parentOnly)
      ensures r.Ok? ==> r.value.node in dom && (parentOnly ==> IsDir(mem.heap, r.value.node))
    {
      ResolveStays(mem.heap, dom, root, dir, name, parentOnly);
      if HasPrefixSlash(name) {
        return Err(EPERM);
      }
      var parts := Split(name);
      var base := "";
      if parentOnly {
        while |parts| > 1 && parts[|parts| - 1] == ""
          invariant |parts| > 0 && StripEmpty(parts) == StripEmpty(Split(name))
        {
          parts := parts[..|parts| - 1];
        }
        base := parts[|parts| - 1];
        parts := parts[..|parts| - 1];
        if base == "" || base == "." || base == ".." {
          return Err(EINVAL);
        }
      }
      var cur := Some(dir);
      var i := 0;
      ghost var spec := Climb(mem.heap, root, dir, parts);
      assert parts[0..] == parts;
      while i < |parts|
        invariant 0 <= i <= |parts|
        invariant match cur
                  case None => spec == Crash
                  case Some(x) => x in dom && spec == Climb(mem.heap, root, x, parts[i..])
      {
        var p := parts[i];
        assert parts[i..][0] == p && parts[i..][1..] == parts[i + 1..];
        i := i + 1;
        if p == "" || p == "." {
          continue;
        }
        if p == ".." {
          if cur == Some(root) {
            return Err(EPERM);
          }
          if cur.None? {
            return Crash;
          }
          assert IsDir(mem.heap, cur.value) ==> DirOk(mem.heap, dom, root, cur.value);
          match mem.heap[cur.value] {
            case Dir(_, parent) => cur := Some(parent);
            case File(_) => cur := None;
          }
          continue;
        }
        if cur.None? {
          return Crash;
        }
        if !IsDir(mem.heap, cur.value) {
          return Err(ENOTDIR);
        }
        if p !in mem.heap[cur.value].entries {
          return Err(ENOENT);
        }
        assert DirOk(mem.heap, dom, root, cur.value) && EntryOk(mem.heap, dom, root, cur.value, p);
        cur := Some(mem.heap[cur.value].entries[p]);
      }
      if cur.None? {
        return Crash;
      }
      if !IsDir(mem.heap, cur.value) && (parentOnly || HasSuffixSlash(name)) {
        return Err(ENOTDIR);
      }
      return Ok(Place(cur.value, base));
    }

    // ---- operations ----

    /** Nothing outside this filesystem changed, and what joined it is new. */
    twostate predicate Framed()
      reads this, mem
    {
      && (forall x :: x in old(mem.heap) && x !in old(dom) ==> x in mem.heap && mem.heap[x] == old(mem.heap[x]))
      && old(dom) <= dom
      && (forall x :: x in dom && x !in old(dom) ==> x !in old(mem.heap))
    }

    method OpenAt(dir: Id, name: string, fl: Flags) returns (r: Res<Id>)
      requires Valid() && dir in dom
      modifies this, mem
      ensures Valid() && Framed()
      ensures Outcome(mem.heap, r) == Open(old(mem.heap), old(dom), root, dir, name, fl, old(mem.next))
      ensures r.Ok? ==> r.value in dom
    {
      Theorems.OpenWF(mem.heap, dom, root, dir, name, fl, mem.next);
      Theorems.OpenFrame(mem.heap, dom, root, dir, name, fl, mem.next);
      r := OpenResolved(dir, name, fl);
      dom := Theorems.Grown(dom, mem.heap, old(mem.next));
    }

    method OpenResolved(dir: Id, name: string, fl: Flags) returns (r: Res<Id>)
      requires Valid() && dir in dom
      modifies mem
      ensures Outcome(mem.heap, r) == Open(old(mem.heap), dom, root, dir, name, fl, old(mem.next))
      ensures mem.next == if old(mem.next) in mem.heap then old(mem.next) + 1 else old(mem.next)
    {
      var place := Resolve(dir, name, fl.creat);
      match place
      case Err(e) => return Err(e);
      case Crash => return Crash;
      case Ok(Place(d, base)) =>
        var n := d;
        if fl.creat {
          if base in mem.heap[d].entries {
            if fl.excl {
              return Err(EEXIST);
            }
            assert DirOk(mem.heap, dom, root, d) && EntryOk(mem.heap, dom, root, d, base);
            n := mem.heap[d].entries[base];
          } else {
            n := CreateAt(d, base);
          }
        }
        r := OpenNode(n, fl);
    }

    /** A new, empty file as base of d. */
    method CreateAt(d: Id, base: string) returns (n: Id)
      requires mem.Valid() && IsDir(mem.heap, d)
      modifies mem
      ensures mem.Valid() && n == old(mem.next) && mem.next == n + 1
      ensures mem.heap == AddEntry(old(mem.heap)[n := File([])], d, base, n)
      ensures forall x :: x in old(mem.heap) && x != d ==> x in mem.heap && mem.heap[x] == old(mem.heap[x])
    {
      n := mem.Allocate(File([]));
      mem.heap := AddEntry(mem.heap, d, base, n);
    }

    /** The part of OpenAt after the node is found. */
    method OpenNode(n: Id, fl: Flags) returns (r: Res<Id>)
      requires mem.Valid() && n in mem.heap
      modifies mem
      ensures mem.Valid() && mem.next == old(mem.next)
      ensures Outcome(mem.heap, r) == Opened(old(mem.heap), n, fl)
      ensures forall x :: x in old(mem.heap) && x != n ==> x in mem.heap && mem.heap[x] == old(mem.heap[x])
    {
      if mem.heap[n].Dir? {
        return if fl.writable || fl.trunc then Err(EISDIR) else Ok(n);
      }
      if fl.trunc && fl.writable {
        mem.heap := mem.heap[n := File([])];
      }
      return Ok(n);
    }

    method MkdirAt(dir: Id, name: string) returns (r: Res<()>)
      requires Valid() && dir in dom
      modifies this, mem
      ensures Valid() && Framed()
      ensures Outcome(mem.heap, r) == Mkdir(old(mem.heap), old(dom), root, dir, name, old(mem.next))
    {
      hide WF;
      Theorems.MkdirWF(mem.heap, dom, root, dir, name, mem.next);
      var place := Resolve(dir, name, true);
      match place
      case Err(e) => return Err(e);
      case Crash => return Crash;
      case Ok(Place(d, base)) =>
        if base in mem.heap[d].entries {
          return Err(EEXIST);
        }
        var id := mem.Allocate(Dir(map[], d));
        mem.heap := AddEntry(mem.heap, d, base, id);
        dom := dom + {id};
        return Ok(());
    }

    method RmdirAt(dir: Id, name: string) returns (r: Res<()>)
      requires Valid() && dir in dom
      modifies this, mem
      ensures Valid() && Framed() && dom == old(dom)
      ensures Outcome(mem.heap, r) == Rmdir(old(mem.heap), old(dom), root, dir, name)
    {
      hide WF;
      Theorems.RmdirWF(mem.heap, dom, root, dir, name);
      var place := Resolve(dir, name, true);
      match place
      case Err(e) => return Err(e);
      case Crash => return Crash;
      case Ok(Place(d, base)) =>
        if base !in mem.heap[d].entries {
          return Err(ENOENT);
        }
        var n := mem.heap[d].entries[base];
        if !IsDir(mem.heap, n) {
          return Err(ENOTDIR);
        }
        if mem.heap[n].entries != map[] {
          return Err(ENOTEMPTY);
        }
        mem.heap := RemoveEntry(mem.heap, d, base);
        return Ok(());
    }

    method UnlinkAt(dir: Id, name: string) returns (r: Res<()>)
      requires Valid() && dir in dom
      modifies this, mem
      ensures Valid() && Framed() && dom == old(dom)
      ensures Outcome(mem.heap, r) == Unlink(old(mem.heap), old(dom), root, dir, name)
    {
      hide WF;
      Theorems.UnlinkWF(mem.heap, dom, root, dir, name);
      var place := Resolve(dir, name, true);
      match place
      case Err(e) => return Err(e);
      case Crash => return Crash;
      case Ok(Place(d, base)) =>
        if base !in mem.heap[d].entries {
          return Err(ENOENT);
        }
        if IsDir(mem.heap, mem.heap[d].entries[base]) {
          return Err(EISDIR);
        }
        mem.heap := RemoveEntry(mem.heap, d, base);
        return Ok(());
    }

    /** The ancestor walk of a directory rename: it ends at root, whatever directory it starts from. */
    method IsAbove(n: Id, nd: Id) returns (above: bool)
      requires Valid() && n in dom && n != root && nd in dom && IsDir(mem.heap, nd)
      ensures above <==> Ancestor(mem.heap, root, n, nd)
    {
      assert DirOk(mem.heap, dom, root, nd);
      var d := nd;
      ghost var k: nat :| Chain(mem.heap, root, d, k);
      while true
        invariant d in dom && IsDir(mem.heap, d) && Chain(mem.heap, root, d, k)
        invariant Ancestor(mem.heap, root, n, nd) <==> Ancestor(mem.heap, root, n, d)
        decreases k
      {
        if d == n {
          assert Above(mem.heap, root, n, d, 0);
          return true;
        }
        if d == root {
          return false;
        }
        AncestorOfParent(mem.heap, root, n, d);
        assert DirOk(mem.heap, dom, root, d);
        d, k := mem.heap[d].parent, k - 1;
      }
    }

    method RenameAt(dir: Id, oldName: string, o: Other, newName: string) returns (r: Res<()>)
      requires Valid() && dir in dom && (o.sameFs ==> o.node in dom)
      modifies this, mem
      ensures Valid() && Framed() && dom == old(dom)
      ensures Outcome(mem.heap, r) == Rename(old(mem.heap), old(dom), root, dir, oldName, o, newName)
    {
      Theorems.RenameWF(mem.heap, dom, root, dir, oldName, o, newName);
      if !o.sameFs {
        return Err(EXDEV);
      }
      if !IsDir(mem.heap, o.node) {
        return Err(ENOTDIR);
      }
      var from := Resolve(dir, oldName, true);
      if !from.Ok? {
        return if from.Err? then Err(from.error) else Crash;
      }
      var to := Resolve(o.node, newName, true);
      if !to.Ok? {
        return if to.Err? then Err(to.error) else Crash;
      }
      r := MoveEntry(Ends(from.value.node, from.value.base, to.value.node, to.value.base));
    }

    /** The part of RenameAt after both names are resolved. */
    method MoveEntry(e: Ends) returns (r: Res<()>)
      requires Valid() && e.od in dom && IsDir(mem.heap, e.od) && e.nd in dom && IsDir(mem.heap, e.nd)
      modifies mem
      ensures mem.next == old(mem.next) && mem.heap.Keys == old(mem.heap.Keys)
      ensures forall x :: x in old(mem.heap) && x !in dom ==> mem.heap[x] == old(mem.heap[x])
      ensures match old(RenameRefusal(mem.heap, root, e))
              case Some(err) => r == Err(err) && mem.heap == old(mem.heap)
              case None =>
                r == Ok(()) && var n := old(mem.heap)[e.od].entries[e.ob];
                mem.heap == if old(Edge(mem.heap, e.nd, e.nb, n)) then old(mem.heap) else Moved(old(mem.heap), e, n)
    {
      hide Moved, WF;
      if e.ob !in mem.heap[e.od].entries {
        return Err(ENOENT);
      }
      var n := mem.heap[e.od].entries[e.ob];
      Theorems.EntryInDom(mem.heap, dom, root, e.od, e.ob);
      if e.nb in mem.heap[e.nd].entries {
        var target := mem.heap[e.nd].entries[e.nb];
        if target == n {
          return Ok(());
        }
        if IsDir(mem.heap, n) && !IsDir(mem.heap, target) {
          return Err(ENOTDIR);
        }
        if !IsDir(mem.heap, n) && IsDir(mem.heap, target) {
          return Err(EISDIR);
        }
        if IsDir(mem.heap, target) && mem.heap[target].entries != map[] {
          return Err(ENOTEMPTY);
        }
      }
      ghost var h := mem.heap;
      if IsDir(mem.heap, n) {
        var above := IsAbove(n, e.nd);
        if above {
          return Err(EINVAL);
        }
        mem.heap := SetParent(mem.heap, n, e.nd);
      }
      mem.heap := RemoveEntry(mem.heap, e.od, e.ob);
      mem.heap := AddEntry(mem.heap, e.nd, e.nb, n);
      MoveOrder(h, e, n);
      return Ok(());
    }

    method LinkAt(dir: Id, oldName: string, o: Other, newName: string) returns (r: Res<()>)
      requires Valid() && dir in dom && (o.sameFs ==> o.node in dom)
      modifies this, mem
      ensures Valid() && Framed() && dom == old(dom)
      ensures Outcome(mem.heap, r) == Link(old(mem.heap), old(dom), root, dir, oldName, o, newName)
    {
      hide WF;
      Theorems.LinkWF(mem.heap, dom, root, dir, oldName, o, newName);
      if !o.sameFs {
        return Err(EXDEV);
      }
      if !IsDir(mem.heap, o.node) {
        return Err(ENOTDIR);
      }
      var from := Resolve(dir, oldName, false);
      if !from.Ok? {
        return if from.Err? then Err(from.error) else Crash;
      }
      if IsDir(mem.heap, from.value.node) {
        return Err(EPERM);
      }
      var to := Resolve(o.node, newName, true);
      if !to.Ok? {
        return if to.Err? then Err(to.error) else Crash;
      }
      if to.value.base in mem.heap[to.value.node].entries {
        return Err(EEXIST);
      }
      mem.heap := AddEntry(mem.heap, to.value.node, to.value.base, from.value.node);
      return Ok(());
    }

    // ---- contents ----

    /**
     WriteAt through a handle to node f, open for writing or not; memOk: a larger slice can be made if one is
     needed.
     */
    method WriteAt(f: Id, b: seq<bv8>, off: int, writable: bool, memOk: bool) returns (r: FileData.Res<nat>)
      requires Valid() && f in dom && off <= FileData.MAX_INT64
      requires f in mem.heap && mem.heap[f].File? ==> |mem.heap[f].data| + |b| <= FileData.MAX_INT64
      modifies mem
      ensures Valid() && Framed() && dom == old(dom)
      ensures r == if IsDir(old(mem.heap), f) then FileData.Err(FileData.EISDIR)
                   else if !writable then FileData.Err(FileData.EBADF)
                   else if off < 0 then FileData.Err(FileData.EINVAL)
                   else if off + |b| > FileData.MAX_INT64 then FileData.Panic
                   else if !memOk && off + |b| > |old(mem.heap[f].data)| then FileData.Panic
                   else FileData.Ok(|b|)
      ensures mem.heap == if r.Ok? then old(mem.heap)[f := File(FileData.Written(old(mem.heap[f].data), off, b))]
                          else old(mem.heap)
    {
      hide WF;
      Theorems.DomInHeap(mem.heap, dom, root);
      if mem.heap[f].Dir? {
        return FileData.Err(FileData.EISDIR);
      }
      if !writable {
        return FileData.Err(FileData.EBADF);
      }
      if off < 0 {
        return FileData.Err(FileData.EINVAL);
      }
      if off + |b| > FileData.MAX_INT64 || (!memOk && off + |b| > |mem.heap[f].data|) {
        return FileData.Panic;
      }
      var h := mem.heap[f := File(FileData.Written(mem.heap[f].data, off, b))];
      FrameWF(mem.heap, h, dom, root);
      mem.heap := h;
      return FileData.Ok(|b|);
    }

    /** Truncate through a handle to node f. */
    method Truncate(f: Id, size: int, memOk: bool) returns (r: FileData.Res<()>)
      requires Valid() && f in dom
      modifies mem
      ensures Valid() && Framed() && dom == old(dom)
      ensures r == if IsDir(old(mem.heap), f) then FileData.Err(FileData.EISDIR)
                   else if size < 0 then FileData.Err(FileData.EINVAL)
                   else if !memOk && size > |old(mem.heap[f].data)| then FileData.Panic
                   else FileData.Ok(())
      ensures mem.heap == if r.Ok? then old(mem.heap)[f := File(FileData.Resized(old(mem.heap[f].data), size))]
                          else old(mem.heap)
    {
      hide WF;
      Theorems.DomInHeap(mem.heap, dom, root);
      if mem.heap[f].Dir? {
        return FileData.Err(FileData.EISDIR);
      }
      if size < 0 {
        return FileData.Err(FileData.EINVAL);
      }
      if !memOk && size > |mem.heap[f].data| {
        return FileData.Panic;
      }
      var h := mem.heap[f := File(FileData.Resized(mem.heap[f].data, size))];
      FrameWF(mem.heap, h, dom, root);
      mem.heap := h;
      return FileData.Ok(());
    }

    // ---- clone ----

    /** The recursive copy; parent is the copy of the directory n was found in. */
    method CloneNode(n: Id, parent: Id, copies: map<Id, Id>, ghost h: Heap, ghost base: Id, ghost open: set<Id>)
      returns (c: Id, copies': map<Id, Id>)
      requires WF(h, dom, root) && mem.Valid() && base <= mem.next && n in dom
      requires Copying(mem.heap, h, base, dom, root, copies, open)
      requires IsDir(h, n) && n != root ==> h[n].parent in copies && parent == copies[h[n].parent]
      modifies mem
      ensures mem.Valid() && base <= mem.next
      ensures Copying(mem.heap, h, base, dom, root, copies', open) && n in copies' && c == copies'[n]
      ensures Extends(copies', copies)
      ensures forall x :: x in open ==> mem.heap[copies[x]] == old(mem.heap[copies[x]])
      decreases dom - copies.Keys, 0
    {
      hide WF, CopyOk;
      if n in copies {
        return copies[n], copies;
      }
      var node := mem.heap[n];
      var node' := if node.Dir? then Dir(map[], parent) else File(node.data);
      StartCopy(mem.heap, h, base, dom, root, copies, open, n, mem.next, node');
      c := mem.Allocate(node');
      copies' := copies[n := c];
      if node.Dir? {
        copies' := CloneEntries(n, c, node.entries, copies', h, base, open + {n});
        FinishCopy(mem.heap, h, base, dom, root, copies', open + {n}, n);
        assert open + {n} - {n} == open;
      }
    }

    /** The loop of the copy over a directory's entries. */
    method CloneEntries(n: Id, c: Id, entries: map<string, Id>, copies: map<Id, Id>,
                        ghost h: Heap, ghost base: Id, ghost open: set<Id>)
      returns (copies': map<Id, Id>)
      requires WF(h, dom, root) && mem.Valid() && base <= mem.next && n in open && n in copies && c == copies[n]
      requires Copying(mem.heap, h, base, dom, root, copies, open)
      requires IsDir(h, n) && h[n].entries == entries && IsDir(mem.heap, c) && mem.heap[c].entries == map[]
      modifies mem
      ensures mem.Valid() && base <= mem.next
      ensures Copying(mem.heap, h, base, dom, root, copies', open)
      ensures Extends(copies', copies)
      ensures IsDir(mem.heap, c) && EntriesCopied(h, mem.heap, copies', n)
      ensures forall x :: x in open && x != n ==> mem.heap[copies[x]] == old(mem.heap[copies[x]])
      decreases dom - copies.Keys, 2
    {
      hide WF, Copying;
      copies' := copies;
      CopiesAllocated(mem.heap, h, base, dom, root, copies, open);
      var rest := entries.Keys;
      while rest != {}
        invariant rest <= entries.Keys
        invariant mem.Valid() && base <= mem.next
        invariant Copying(mem.heap, h, base, dom, root, copies', open)
        invariant Extends(copies', copies)
        invariant forall x :: x in copies' ==> copies'[x] in mem.heap
        invariant IsDir(mem.heap, c) && mem.heap[c].entries.Keys == entries.Keys - rest
        invariant forall nm :: nm in mem.heap[c].entries ==>
          entries[nm] in copies' && mem.heap[c].entries[nm] == copies'[entries[nm]]
        invariant forall x :: x in open && x != n ==> mem.heap[copies[x]] == old(mem.heap[copies[x]])
      {
        var nm :| nm in rest;
        assert dom - copies'.Keys <= dom - copies.Keys;
        copies' := CloneEntry(n, c, nm, entries[nm], copies', h, base, open);
        rest := rest - {nm};
      }
    }

    /** One entry: the child is copied and entered in c. */
    method CloneEntry(n: Id, c: Id, nm: string, child: Id, copies: map<Id, Id>,
                      ghost h: Heap, ghost base: Id, ghost open: set<Id>)
      returns (copies': map<Id, Id>)
      requires WF(h, dom, root) && mem.Valid() && base <= mem.next && n in open && n in copies && c == copies[n]
      requires Copying(mem.heap, h, base, dom, root, copies, open) && forall x :: x in copies ==> copies[x] in mem.heap
      requires Edge(h, n, nm, child) && IsDir(mem.heap, c)
      modifies mem
      ensures mem.Valid() && base <= mem.next
      ensures Copying(mem.heap, h, base, dom, root, copies', open)
      ensures Extends(copies', copies) && child in copies'
      ensures forall x :: x in copies' ==> copies'[x] in mem.heap
      ensures mem.heap[c] == old(mem.heap[c]).(entries := old(mem.heap[c].entries)[nm := copies'[child]])
      ensures forall x :: x in open && x != n ==> mem.heap[copies[x]] == old(mem.heap[copies[x]])
      decreases dom - copies.Keys, 1
    {
      hide EntriesCopied, ParentCopied, Above, Chain;
      assert DirOk(h, dom, root, n) && EntryOk(h, dom, root, n, nm);
      var child';
      child', copies' := CloneNode(child, c, copies, h, base, open);
      AddToCopy(mem.heap, h, base, dom, root, copies', open, n, nm, child');
      mem.heap := AddEntry(mem.heap, c, nm, child');
    }

    method Clone() returns (copy: FS, ghost m: map<Id, Id>)
      requires Valid()
      modifies mem
      ensures Valid() && fresh(copy) && copy.mem == mem && copy.Valid()
      ensures forall x :: x in old(mem.heap) ==> x in mem.heap && mem.heap[x] == old(mem.heap[x])
      ensures m.Keys <= dom && Iso(old(mem.heap), mem.heap, m, root) && copy.root == m[root] && copy.dom == m.Values
      ensures copy.dom !! old(mem.heap).Keys
    {
      hide WF, Copying, Iso;
      ghost var h, base := mem.heap, mem.next;
      EmptyCopy(h, base, dom, root);
      var r, copies := CloneNode(root, 0, map[], h, base, {});
      CopiesAllocated(mem.heap, h, base, dom, root, copies, {});
      CompleteCopy(mem.heap, h, base, dom, root, copies);
      mem.heap := SetParent(mem.heap, r, r);
      m := copies;
      copy := new FS.Copied(mem, r, m.Values);
    }
  }

  ghost predicate Extends(m': map<Id, Id>, m: map<Id, Id>) {
    m.Keys <= m'.Keys && forall x :: x in m ==> m'[x] == m[x]
  }

  /**
   A call on one filesystem leaves any other in the same memory valid and apart from it, such as a
   clone or what it was cloned from, and every name resolves in that one as before.
   */
  twostate lemma OthersStay(a: FS, b: FS, dir: Id, name: string, parentOnly: bool)
    requires a.mem == b.mem && old(a.Valid()) && old(b.Valid()) && old(a.dom) !! old(b.dom)
    requires b.Valid() && b.Framed() && a.dom == old(a.dom) && dir in a.dom
    ensures a.Valid() && a.dom !! b.dom
    ensures forall x :: x in a.dom ==> x in a.mem.heap && a.mem.heap[x] == old(a.mem.heap[x])
    ensures Ops.Resolve(a.mem.heap, a.root, dir, name, parentOnly) ==
            Ops.Resolve(old(a.mem.heap), a.root, dir, name, parentOnly)
  {
    Theorems.DomInHeap(old(a.mem.heap), a.dom, a.root);
    hide WF, Ops.Resolve;
    FrameWF(old(a.mem.heap), a.mem.heap, a.dom, a.root);
    World.ResolveInside(old(a.mem.heap), a.mem.heap, a.dom, a.root, dir, name, parentOnly);
  }

  /** The three updates of a rename in the order the code makes them. */
  lemma MoveOrder(h: Heap, e: Ends, n: Id)
    requires IsDir(h, e.od) && IsDir(h, e.nd)
    ensures AddEntry(RemoveEntry(if IsDir(h, n) then SetParent(h, n, e.nd) else h, e.od, e.ob), e.nd, e.nb, n)
            == Moved(h, e, n)
    ensures Moved(h, e, n).Keys == h.Keys
    ensures forall x :: x in h && x !in {e.od, e.nd, n} ==> Moved(h, e, n)[x] == h[x]
  {
  }

  lemma AncestorOfParent(h: Heap, root: Id, n: Id, d: Id)
    requires IsDir(h, d) && d != n && d != root
    ensures Ancestor(h, root, n, d) <==> Ancestor(h, root, n, h[d].parent)
  {
    if Ancestor(h, root, n, d) {
      var k: nat :| Above(h, root, n, d, k);
      assert Above(h, root, n, h[d].parent, k - 1);
    }
    if Ancestor(h, root, n, h[d].parent) {
      var k: nat :| Above(h, root, n, h[d].parent, k);
      assert Above(h, root, n, d, k + 1);
    }
  }
}
