/**
 What holds of the namespace over every run, and what a rename that succeeds does to the graph.
 */
module MemFsTheorems {
  import opened Common
  import opened MemFsGraph
  import opened MemFsOps

  // ---- every operation keeps well-formedness ----

  lemma {:induction false} AboveStays(h: Heap, dom: set<Id>, root: Id, a: Id, x: Id, k: nat)
    requires WF(h, dom, root) && x in dom && Above(h, root, a, x, k)
    ensures a in dom
    decreases k
  {
    if x != a {
      assert DirOk(h, dom, root, x);
      AboveStays(h, dom, root, a, h[x].parent, k - 1);
    }
  }

  lemma {:induction false} AboveFrame(h: Heap, h': Heap, root: Id, a: Id, x: Id, k: nat)
    requires Above(h, root, a, x, k)
    requires forall d :: IsDir(h, d) ==> IsDir(h', d) && h'[d].parent == h[d].parent
    ensures Above(h', root, a, x, k)
    decreases k
  {
    if x != a {
      AboveFrame(h, h', root, a, h[x].parent, k - 1);
    }
  }

  lemma OpenedWF(h: Heap, dom: set<Id>, root: Id, n: Id, fl: Flags)
    requires WF(h, dom, root) && n in h
    ensures WF(Opened(h, n, fl).heap, dom, root)
  {
    FrameWF(h, Opened(h, n, fl).heap, dom, root);
  }

  /** The filesystem's nodes after an operation that may have allocated id. */
  ghost function Grown(dom: set<Id>, h: Heap, id: Id): set<Id> {
    if id in h then dom + {id} else dom
  }

  lemma OpenWF(h: Heap, dom: set<Id>, root: Id, dir: Id, name: string, fl: Flags, id: Id)
    requires WF(h, dom, root) && dir in dom && id !in h
    ensures var o := Open(h, dom, root, dir, name, fl, id);
            WF(o.heap, Grown(dom, o.heap, id), root) && o.heap.Keys <= h.Keys + {id}
  {
    ResolveStays(h, dom, root, dir, name, fl.creat);
    match Resolve(h, root, dir, name, fl.creat)
    case Err(_) =>
    case Crash =>
    case Ok(Place(d, base)) =>
      if !fl.creat {
        OpenedWF(h, dom, root, d, fl);
      } else if base in h[d].entries {
        assert DirOk(h, dom, root, d) && EntryOk(h, dom, root, d, base);
        OpenedWF(h, dom, root, h[d].entries[base], fl);
      } else {
        AllocateWF(h, dom, root, id, File([]));
        AddFileWF(h[id := File([])], dom + {id}, root, d, base, id);
        OpenedWF(AddEntry(h[id := File([])], d, base, id), dom + {id}, root, id, fl);
      }
  }

  /** Opening changes no node outside the filesystem, and opens one inside it. */
  lemma OpenFrame(h: Heap, dom: set<Id>, root: Id, dir: Id, name: string, fl: Flags, id: Id)
    requires WF(h, dom, root) && dir in dom && id !in h
    ensures var o := Open(h, dom, root, dir, name, fl, id);
            && (forall x :: x in h && x !in dom ==> x in o.heap && o.heap[x] == h[x])
            && h.Keys <= o.heap.Keys <= h.Keys + {id}
            && (o.res.Ok? ==> o.res.value in Grown(dom, o.heap, id))
  {
    ResolveStays(h, dom, root, dir, name, fl.creat);
    match Resolve(h, root, dir, name, fl.creat)
    case Ok(Place(d, base)) =>
      if fl.creat && base in h[d].entries {
        assert DirOk(h, dom, root, d) && EntryOk(h, dom, root, d, base);
      }
    case _ =>
  }

  lemma DomInHeap(h: Heap, dom: set<Id>, root: Id)
    requires WF(h, dom, root)
    ensures dom <= h.Keys
  {
  }

  lemma EntryInDom(h: Heap, dom: set<Id>, root: Id, d: Id, nm: string)
    requires WF(h, dom, root) && d in dom && IsDir(h, d) && nm in h[d].entries
    ensures h[d].entries[nm] in dom && h[d].entries[nm] in h
    ensures IsDir(h, h[d].entries[nm]) ==> h[d].entries[nm] != root
  {
    assert DirOk(h, dom, root, d) && EntryOk(h, dom, root, d, nm);
  }

  lemma MkdirWF(h: Heap, dom: set<Id>, root: Id, dir: Id, name: string, id: Id)
    requires WF(h, dom, root) && dir in dom && id !in h
    ensures var o := Mkdir(h, dom, root, dir, name, id);
            WF(o.heap, Grown(dom, o.heap, id), root) && o.heap.Keys <= h.Keys + {id}
  {
    hide WF;
    DomInHeap(h, dom, root);
    ResolveStays(h, dom, root, dir, name, true);
    match Resolve(h, root, dir, name, true)
    case Err(_) =>
    case Crash =>
    case Ok(Place(d, base)) =>
      if base !in h[d].entries {
        var h1 := h[id := Dir(map[], d)];
        AllocateWF(h, dom, root, id, Dir(map[], d));
        FrameWF(h, h1, dom, root);
        forall k: nat ensures !Above(h1, root, id, d, k) {
          if Above(h1, root, id, d, k) { AboveStays(h1, dom, root, id, d, k); }
        }
        assert SetParent(h1, id, d) == h1;
        AttachDirWF(h1, dom + {id}, root, id, d, base);
      }
  }

  lemma RmdirWF(h: Heap, dom: set<Id>, root: Id, dir: Id, name: string)
    requires WF(h, dom, root) && dir in dom
    ensures WF(Rmdir(h, dom, root, dir, name).heap, dom, root)
    ensures Rmdir(h, dom, root, dir, name).heap.Keys == h.Keys
  {
    ResolveStays(h, dom, root, dir, name, true);
    var r := Resolve(h, root, dir, name, true);
    if r.Ok? { RemoveEntryWF(h, dom, root, r.value.node, r.value.base); }
  }

  lemma UnlinkWF(h: Heap, dom: set<Id>, root: Id, dir: Id, name: string)
    requires WF(h, dom, root) && dir in dom
    ensures WF(Unlink(h, dom, root, dir, name).heap, dom, root)
    ensures Unlink(h, dom, root, dir, name).heap.Keys == h.Keys
  {
    ResolveStays(h, dom, root, dir, name, true);
    var r := Resolve(h, root, dir, name, true);
    if r.Ok? { RemoveEntryWF(h, dom, root, r.value.node, r.value.base); }
  }

  lemma LinkWF(h: Heap, dom: set<Id>, root: Id, dir: Id, oldName: string, o: Other, newName: string)
    requires WF(h, dom, root) && dir in dom && (o.sameFs ==> o.node in dom)
    ensures WF(Link(h, dom, root, dir, oldName, o, newName).heap, dom, root)
    ensures Link(h, dom, root, dir, oldName, o, newName).heap.Keys == h.Keys
  {
    ResolveStays(h, dom, root, dir, oldName, false);
    var n := Resolve(h, root, dir, oldName, false);
    if o.sameFs && n.Ok? && !IsDir(h, n.value.node) {
      ResolveStays(h, dom, root, o.node, newName, true);
      var r := Resolve(h, root, o.node, newName, true);
      if r.Ok? { AddFileWF(h, dom, root, r.value.node, r.value.base, n.value.node); }
    }
  }

  /** The entry nm of d can take n: it is free, or n and what it holds are files, or directories and that one empty. */
  predicate HasRoom(h: Heap, d: Id, nm: string, n: Id)
    requires IsDir(h, d)
  {
    nm in h[d].entries ==>
      var t := h[d].entries[nm];
      if IsDir(h, n) then IsDir(h, t) && h[t].entries == map[] else !IsDir(h, t)
  }

  /** A rename that is to be carried out and that changes something. */
  ghost predicate Moves(h: Heap, dom: set<Id>, root: Id, e: Ends, n: Id) {
    && WF(h, dom, root) && EndsOk(h, dom, e)
    && Edge(h, e.od, e.ob, n) && !Edge(h, e.nd, e.nb, n)
    && HasRoom(h, e.nd, e.nb, n) && !(IsDir(h, n) && Ancestor(h, root, n, e.nd))
  }

  /** The moved directory, taken out of its entry, is nowhere else and not above where it goes. */
  lemma MovedOut(h: Heap, dom: set<Id>, root: Id, e: Ends, n: Id)
    requires Moves(h, dom, root, e, n) && IsDir(h, n)
    ensures n in dom && n != root
    ensures var h1 := RemoveEntry(h, e.od, e.ob); Detached(h1, dom, n) && !Ancestor(h1, root, n, e.nd)
  {
    var h1 := RemoveEntry(h, e.od, e.ob);
    assert DirOk(h, dom, root, e.od) && EntryOk(h, dom, root, e.od, e.ob);
    forall d, nm | d in dom && IsDir(h1, d) && nm in h1[d].entries ensures h1[d].entries[nm] != n {
      if h1[d].entries[nm] == n { DirectoryHasOneEntry(h, dom, root, n, d, nm, e.od, e.ob); }
    }
    forall k: nat ensures !Above(h1, root, n, e.nd, k) {
      if Above(h1, root, n, e.nd, k) { AboveFrame(h1, h, root, n, e.nd, k); }
    }
  }

  lemma MovedWF(h: Heap, dom: set<Id>, root: Id, e: Ends, n: Id)
    requires Moves(h, dom, root, e, n)
    ensures WF(Moved(h, e, n), dom, root) && Moved(h, e, n).Keys == h.Keys
  {
    hide WF;
    var h1 := RemoveEntry(h, e.od, e.ob);
    RemoveEntryWF(h, dom, root, e.od, e.ob);
    EntryInDom(h, dom, root, e.od, e.ob);
    if IsDir(h, n) {
      MovedOut(h, dom, root, e, n);
      AttachDirWF(h1, dom, root, n, e.nd, e.nb);
    } else {
      AddFileWF(h1, dom, root, e.nd, e.nb, n);
    }
  }

  lemma RenameWF(h: Heap, dom: set<Id>, root: Id, dir: Id, oldName: string, o: Other, newName: string)
    requires WF(h, dom, root) && dir in dom && (o.sameFs ==> o.node in dom)
    ensures WF(Rename(h, dom, root, dir, oldName, o, newName).heap, dom, root)
    ensures Rename(h, dom, root, dir, oldName, o, newName).heap.Keys == h.Keys
  {
    hide WF, Moved, Ancestor, Resolve;
    RenameEndsOk(h, dom, root, dir, oldName, o, newName);
    var r := RenameEnds(h, root, dir, oldName, o, newName);
    if r.Ok? && RenameRefusal(h, root, r.value) == None {
      var n := h[r.value.od].entries[r.value.ob];
      if !Edge(h, r.value.nd, r.value.nb, n) { MovedWF(h, dom, root, r.value, n); }
    }
  }

  /**
   A rename succeeds exactly when it finds the old name's node under the new name already, or when it is to
   be carried out, and then it moves that node; any other changes nothing.
   */
  lemma RenameOutcome(h: Heap, dom: set<Id>, root: Id, dir: Id, oldName: string, o: Other, newName: string)
    requires WF(h, dom, root) && dir in dom && (o.sameFs ==> o.node in dom)
    ensures var out := Rename(h, dom, root, dir, oldName, o, newName);
            var r := RenameEnds(h, root, dir, oldName, o, newName);
            && (!out.res.Ok? ==> out.heap == h)
            && (!r.Ok? ==> !out.res.Ok?)
            && (r.Ok? ==>
                  && EndsOk(h, dom, r.value)
                  && if r.value.ob !in h[r.value.od].entries then !out.res.Ok?
                     else
                       var n := h[r.value.od].entries[r.value.ob];
                       && (out.res.Ok? <==> Edge(h, r.value.nd, r.value.nb, n) || Moves(h, dom, root, r.value, n))
                       && (Edge(h, r.value.nd, r.value.nb, n) ==> out.heap == h)
                       && (Moves(h, dom, root, r.value, n) ==> out.heap == Moved(h, r.value, n)))
  {
    hide WF, Moved, Ancestor, Resolve;
    RenameEndsOk(h, dom, root, dir, oldName, o, newName);
  }

  // ---- every run ----

  datatype Op =
    | OpOpen(dir: Id, name: string, flags: Flags)
    | OpMkdir(dir: Id, name: string)
    | OpRmdir(dir: Id, name: string)
    | OpUnlink(dir: Id, name: string)
    | OpRename(dir: Id, oldName: string, other: Other, newName: string)
    | OpLink(dir: Id, oldName: string, other: Other, newName: string)
    | OpWrite(file: Id, data: seq<bv8>)

  /** A filesystem at some moment: its heap, its nodes (removed ones included) and the next address. */
  datatype State = State(heap: Heap, dom: set<Id>, next: Id)

  ghost predicate Inv(s: State, root: Id) {
    WF(s.heap, s.dom, root) && forall x :: x in s.heap ==> x < s.next
  }

  /** Every handle an operation is called on or given is to a node of the filesystem. */
  predicate Handles(s: State, op: Op) {
    match op
    case OpRename(dir, _, o, _) => dir in s.dom && (o.sameFs ==> o.node in s.dom)
    case OpLink(dir, _, o, _) => dir in s.dom && (o.sameFs ==> o.node in s.dom)
    case OpWrite(f, _) => f in s.dom
    case _ => op.dir in s.dom
  }

  ghost function HeapAfter(s: State, root: Id, op: Op): Heap
    requires Inv(s, root) && Handles(s, op)
  {
    match op
    case OpOpen(d, name, fl) => Open(s.heap, s.dom, root, d, name, fl, s.next).heap
    case OpMkdir(d, name) => Mkdir(s.heap, s.dom, root, d, name, s.next).heap
    case OpRmdir(d, name) => Rmdir(s.heap, s.dom, root, d, name).heap
    case OpUnlink(d, name) => Unlink(s.heap, s.dom, root, d, name).heap
    case OpRename(d, on, o, nn) => Rename(s.heap, s.dom, root, d, on, o, nn).heap
    case OpLink(d, on, o, nn) => Link(s.heap, s.dom, root, d, on, o, nn).heap
    case OpWrite(f, data) => if s.heap[f].File? then s.heap[f := File(data)] else s.heap
  }

  ghost function Step(s: State, root: Id, op: Op): State
    requires Inv(s, root) && Handles(s, op)
  {
    var h := HeapAfter(s, root, op);
    State(h, Grown(s.dom, h, s.next), s.next + 1)
  }

  lemma StepInv(s: State, root: Id, op: Op)
    requires Inv(s, root) && Handles(s, op)
    ensures Inv(Step(s, root, op), root)
  {
    hide WF, Open, Mkdir, Rmdir, Unlink, Rename, Link;
    match op
    case OpOpen(d, name, fl) =>
      OpenWF(s.heap, s.dom, root, d, name, fl, s.next);
    case OpMkdir(d, name) => MkdirWF(s.heap, s.dom, root, d, name, s.next);
    case OpRmdir(d, name) => RmdirWF(s.heap, s.dom, root, d, name);
    case OpUnlink(d, name) => UnlinkWF(s.heap, s.dom, root, d, name);
    case OpRename(d, on, o, nn) =>
      RenameWF(s.heap, s.dom, root, d, on, o, nn);
    case OpLink(d, on, o, nn) => LinkWF(s.heap, s.dom, root, d, on, o, nn);
    case OpWrite(f, data) =>
      assert s.dom <= s.heap.Keys by { DomInHeap(s.heap, s.dom, root); }
      FrameWF(s.heap, HeapAfter(s, root, op), s.dom, root);
  }

  /** The states a run of operations goes through, each on handles of the filesystem. */
  ghost predicate IsRun(root: Id, run: seq<State>, ops: seq<Op>) {
    && |run| == |ops| + 1
    && run[0] == State(map[root := Dir(map[], root)], {root}, root + 1)
    && forall i :: 0 <= i < |ops| ==>
         && Handles(run[i], ops[i])
         && (Inv(run[i], root) ==> run[i + 1] == Step(run[i], root, ops[i]))
  }

  /** Every state of every run from an empty filesystem is well-formed. */
  lemma {:induction false} RunInv(root: Id, run: seq<State>, ops: seq<Op>, i: nat)
    requires IsRun(root, run, ops) && i < |run|
    ensures Inv(run[i], root)
    decreases i
  {
    if i == 0 {
      assert Chain(run[0].heap, root, root, 0);
    } else {
      RunInv(root, run, ops, i - 1);
      StepInv(run[i - 1], root, ops[i - 1]);
    }
  }

  /**
   In every state of every run: a directory, removed or not, has at most one entry, which
   is in its parent; the root has none; and every parent chain ends at the root.
   */
  lemma RunTree(root: Id, run: seq<State>, ops: seq<Op>, i: nat)
    requires IsRun(root, run, ops) && i < |run|
    ensures var h, dom := run[i].heap, run[i].dom;
            && (forall c, d, nm, d', nm' ::
                  d in dom && d' in dom && IsDir(h, c) && Edge(h, d, nm, c) && Edge(h, d', nm', c)
                  ==> d == d' == h[c].parent && nm == nm' && c != root)
            && (forall x :: x in dom && IsDir(h, x) ==> Grounded(h, root, x))
  {
    RunInv(root, run, ops, i);
    var h, dom := run[i].heap, run[i].dom;
    forall c, d, nm, d', nm' |
      d in dom && d' in dom && IsDir(h, c) && Edge(h, d, nm, c) && Edge(h, d', nm', c)
      ensures d == d' == h[c].parent && nm == nm' && c != root
    {
      DirectoryHasOneEntry(h, dom, root, c, d, nm, d', nm');
    }
    forall x | x in dom && IsDir(h, x) ensures Grounded(h, root, x) {
      assert DirOk(h, dom, root, x);
    }
  }

  // ---- the ends of a rename ----

  /** The node displaced by a rename has nothing below it. */
  lemma TargetIsLeaf(h: Heap, dom: set<Id>, root: Id, e: Ends, n: Id, rest: seq<string>, x: Id)
    requires Moves(h, dom, root, e, n)
    requires e.nb in h[e.nd].entries && Walk(h, h[e.nd].entries[e.nb], rest) == Some(x)
    ensures x != e.od && x != e.nd
  {
    var t := h[e.nd].entries[e.nb];
    assert DirOk(h, dom, root, e.nd) && EntryOk(h, dom, root, e.nd, e.nb);
    assert rest == [];
    if IsDir(h, t) {
      assert h[t].entries == map[];
      var k: nat :| Chain(h, root, e.nd, k);
      NotAboveParent(h, root, t, 0, k);
    }
  }

  /** A path to either parent does not go through either entry. */
  lemma PathAvoids(h: Heap, dom: set<Id>, root: Id, e: Ends, n: Id, s: Id, p: seq<string>, x: Id)
    requires Moves(h, dom, root, e, n) && s in dom
    requires Walk(h, s, p) == Some(x) && (x == e.od || x == e.nd)
    ensures !Passes(h, s, p, e.od, e.ob) && !Passes(h, s, p, e.nd, e.nb)
  {
    assert DirOk(h, dom, root, e.od) && EntryOk(h, dom, root, e.od, e.ob);
    if Passes(h, s, p, e.od, e.ob) {
      var rest := PassesThrough(h, s, p, e.od, e.ob, x);
      WalkAncestor(h, dom, root, n, rest, x);
      var j: nat :| Above(h, root, n, x, j);
      if IsDir(h, n) {
        var k: nat :| Chain(h, root, e.od, k);
        NotAboveParent(h, root, n, j, k);
      }
    }
    if Passes(h, s, p, e.nd, e.nb) {
      var rest := PassesThrough(h, s, p, e.nd, e.nb, x);
      TargetIsLeaf(h, dom, root, e, n, rest, x);
    }
  }

  lemma MovedEntries(h: Heap, e: Ends, n: Id)
    requires IsDir(h, e.od) && IsDir(h, e.nd) && Edge(h, e.od, e.ob, n) && !Edge(h, e.nd, e.nb, n)
    ensures Edge(Moved(h, e, n), e.nd, e.nb, n)
    ensures IsDir(Moved(h, e, n), e.od) && e.ob !in Moved(h, e, n)[e.od].entries
  {
  }
}
