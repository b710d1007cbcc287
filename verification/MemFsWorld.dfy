/**
 Several filesystems in one memory, such as an original and its copies: what is done through the
 handles of one is never seen through those of another.
 */
module MemFsWorld {
  import opened Common
  import opened MemFsGraph
  import opened MemFsOps
  import opened MemFsClone
  import opened MemFsPaths
  import Theorems = MemFsTheorems

  /** A filesystem: its root, and its nodes, removed ones included. */
  datatype Side = Side(root: Id, dom: set<Id>)

  datatype World = World(heap: Heap, next: Id, sides: seq<Side>)

  datatype Act =
    | Make
    | On(k: nat, op: Theorems.Op)
    | Copy(k: nat, m: map<Id, Id>)

  function At(w: World, k: nat): Theorems.State
    requires k < |w.sides|
  {
    Theorems.State(w.heap, w.sides[k].dom, w.next)
  }

  ghost predicate SideOk(w: World, k: nat)
    requires k < |w.sides|
  {
    WF(w.heap, w.sides[k].dom, w.sides[k].root)
  }

  predicate Apart(w: World) {
    forall j, k :: 0 <= j < k < |w.sides| ==> w.sides[j].dom !! w.sides[k].dom
  }

  ghost predicate Inv(w: World) {
    && (forall x :: x in w.heap ==> x < w.next)
    && (forall k :: 0 <= k < |w.sides| ==> SideOk(w, k))
    && Apart(w)
  }

  /** What a clone of filesystem k does: m leads from its nodes to new ones that copy them, and nothing old changes. */
  ghost predicate Copies(w: World, k: nat, m: map<Id, Id>, w': World)
    requires k < |w.sides|
  {
    var root := w.sides[k].root;
    && m.Keys <= w.sides[k].dom && Iso(w.heap, w'.heap, m, root)
    && (forall x :: x in w.heap ==> x in w'.heap && w'.heap[x] == w.heap[x])
    && m.Values !! w.heap.Keys && (forall x :: x in w'.heap ==> x < w'.next)
    && w'.sides == w.sides + [Side(m[root], m.Values)]
  }

  predicate Allowed(w: World, act: Act) {
    match act
    case Make => true
    case On(k, op) => k < |w.sides| && Theorems.Handles(At(w, k), op)
    case Copy(k, _) => k < |w.sides|
  }

  ghost predicate StepsTo(w: World, act: Act, w': World)
    requires Inv(w) && Allowed(w, act)
  {
    match act
    case Make => w' == World(w.heap[w.next := Dir(map[], w.next)], w.next + 1, w.sides + [Side(w.next, {w.next})])
    case On(k, op) =>
      assert SideOk(w, k);
      var root := w.sides[k].root;
      var s' := Theorems.Step(At(w, k), root, op);
      w' == World(s'.heap, s'.next, w.sides[k := Side(root, s'.dom)])
    case Copy(k, m) => Copies(w, k, m, w')
  }

  // ---- an operation stays on its side ----

  ghost predicate Same(h: Heap, h': Heap, dom: set<Id>) {
    forall x :: x in h && x !in dom ==> x in h' && h'[x] == h[x]
  }

  lemma MkdirFrame(h: Heap, dom: set<Id>, root: Id, dir: Id, name: string, id: Id)
    requires WF(h, dom, root) && dir in dom && id !in h
    ensures Same(h, Mkdir(h, dom, root, dir, name, id).heap, dom)
  {
    ResolveStays(h, dom, root, dir, name, true);
  }

  lemma RemoveFrame(h: Heap, dom: set<Id>, root: Id, dir: Id, name: string)
    requires WF(h, dom, root) && dir in dom
    ensures Same(h, Rmdir(h, dom, root, dir, name).heap, dom)
    ensures Same(h, Unlink(h, dom, root, dir, name).heap, dom)
  {
    ResolveStays(h, dom, root, dir, name, true);
  }

  lemma LinkFrame(h: Heap, dom: set<Id>, root: Id, dir: Id, oldName: string, o: Other, newName: string)
    requires WF(h, dom, root) && dir in dom && (o.sameFs ==> o.node in dom)
    ensures Same(h, Link(h, dom, root, dir, oldName, o, newName).heap, dom)
  {
    if o.sameFs {
      ResolveStays(h, dom, root, o.node, newName, true);
    }
  }

  lemma MovedFrame(h: Heap, dom: set<Id>, root: Id, e: Ends)
    requires WF(h, dom, root) && EndsOk(h, dom, e) && e.ob in h[e.od].entries
    ensures Same(h, Moved(h, e, h[e.od].entries[e.ob]), dom)
  {
    Theorems.EntryInDom(h, dom, root, e.od, e.ob);
    hide WF;
  }

  lemma RenameFrame(h: Heap, dom: set<Id>, root: Id, dir: Id, oldName: string, o: Other, newName: string)
    requires WF(h, dom, root) && dir in dom && (o.sameFs ==> o.node in dom)
    ensures Same(h, Rename(h, dom, root, dir, oldName, o, newName).heap, dom)
  {
    hide WF, Rename, Moved, RenameEnds, Theorems.Moves;
    Theorems.RenameOutcome(h, dom, root, dir, oldName, o, newName);
    var r := RenameEnds(h, root, dir, oldName, o, newName);
    if r.Ok? && EndsOk(h, dom, r.value) && r.value.ob in h[r.value.od].entries {
      MovedFrame(h, dom, root, r.value);
    }
  }

  lemma StepFrame(s: Theorems.State, root: Id, op: Theorems.Op)
    requires Theorems.Inv(s, root) && Theorems.Handles(s, op)
    ensures Same(s.heap, Theorems.HeapAfter(s, root, op), s.dom)
  {
    hide WF, Open, Mkdir, Rmdir, Unlink, Rename, Link;
    match op
    case OpOpen(d, name, fl) => Theorems.OpenFrame(s.heap, s.dom, root, d, name, fl, s.next);
    case OpMkdir(d, name) => MkdirFrame(s.heap, s.dom, root, d, name, s.next);
    case OpRmdir(d, name) => RemoveFrame(s.heap, s.dom, root, d, name);
    case OpUnlink(d, name) => RemoveFrame(s.heap, s.dom, root, d, name);
    case OpRename(d, on, o, nn) => RenameFrame(s.heap, s.dom, root, d, on, o, nn);
    case OpLink(d, on, o, nn) => LinkFrame(s.heap, s.dom, root, d, on, o, nn);
    case OpWrite(f, data) => Theorems.DomInHeap(s.heap, s.dom, root);
  }

  // ---- every step keeps the filesystems well-formed and apart ----

  /** Filesystem k is untouched from w to w'. */
  ghost predicate Untouched(w: World, w': World, k: nat)
    requires k < |w.sides|
  {
    && k < |w'.sides| && w'.sides[k] == w.sides[k]
    && forall x :: x in w.sides[k].dom && x in w.heap ==> x in w'.heap && w'.heap[x] == w.heap[x]
  }

  lemma UntouchedOk(w: World, w': World, k: nat)
    requires k < |w.sides| && SideOk(w, k) && Untouched(w, w', k)
    ensures SideOk(w', k)
  {
    FrameWF(w.heap, w'.heap, w.sides[k].dom, w.sides[k].root);
  }

  /** A step touches no filesystem but the one it is on. */
  lemma StepUntouched(w: World, act: Act, w': World, j: nat)
    requires Inv(w) && Allowed(w, act) && StepsTo(w, act, w') && j < |w.sides| && !(act.On? && act.k == j)
    ensures Untouched(w, w', j)
  {
    if act.On? {
      assert SideOk(w, act.k);
      hide SideOk, WF, Theorems.HeapAfter;
      StepFrame(At(w, act.k), w.sides[act.k].root, act.op);
    }
  }

  lemma MakeOk(w: World, w': World)
    requires Inv(w) && StepsTo(w, Make, w')
    ensures SideOk(w', |w.sides|)
  {
    assert Chain(w'.heap, w.next, w.next, 0);
    assert DirOk(w'.heap, {w.next}, w.next, w.next);
  }

  lemma SidesOk(w: World, act: Act, w': World, k: nat)
    requires Inv(w) && Allowed(w, act) && StepsTo(w, act, w') && k < |w'.sides|
    ensures SideOk(w', k)
  {
    hide WF;
    if k < |w.sides| && !(act.On? && act.k == k) {
      StepUntouched(w, act, w', k);
      UntouchedOk(w, w', k);
    } else {
      match act
      case Make => MakeOk(w, w');
      case On(_, op) =>
        assert SideOk(w, k);
        Theorems.StepInv(At(w, k), w.sides[k].root, op);
      case Copy(c, m) =>
        assert SideOk(w, c);
        CopyWF(w.heap, w'.heap, m, w.sides[c].dom, w.sides[c].root);
    }
  }

  lemma SideInHeap(w: World, k: nat)
    requires Inv(w) && k < |w.sides|
    ensures w.sides[k].dom <= w.heap.Keys && w.next !in w.sides[k].dom
  {
    assert SideOk(w, k);
  }

  lemma ApartOk(w: World, act: Act, w': World)
    requires Inv(w) && Allowed(w, act) && StepsTo(w, act, w')
    ensures Apart(w')
  {
    hide WF, Theorems.HeapAfter, Iso;
    forall j, k | 0 <= j < k < |w'.sides| ensures w'.sides[j].dom !! w'.sides[k].dom {
      SideInHeap(w, j);
      if k < |w.sides| {
        SideInHeap(w, k);
      }
    }
  }

  lemma NextOk(w: World, act: Act, w': World)
    requires Inv(w) && Allowed(w, act) && StepsTo(w, act, w')
    ensures forall x :: x in w'.heap ==> x < w'.next
  {
    if act.On? {
      assert SideOk(w, act.k);
      hide WF, Theorems.HeapAfter;
      Theorems.StepInv(At(w, act.k), w.sides[act.k].root, act.op);
    }
  }

  lemma StepInv(w: World, act: Act, w': World)
    requires Inv(w) && Allowed(w, act) && StepsTo(w, act, w')
    ensures Inv(w')
  {
    hide SideOk, Apart, StepsTo;
    NextOk(w, act, w');
    ApartOk(w, act, w');
    forall k: nat | k < |w'.sides| ensures SideOk(w', k) {
      SidesOk(w, act, w', k);
    }
  }

  // ---- runs ----

  ghost predicate IsRun(run: seq<World>, acts: seq<Act>) {
    && |run| == |acts| + 1 && run[0] == World(map[], 0, [])
    && forall i :: 0 <= i < |acts| ==> Follows(run[i], acts[i], run[i + 1])
  }

  ghost predicate Follows(w: World, act: Act, w': World) {
    Allowed(w, act) && (Inv(w) ==> StepsTo(w, act, w'))
  }

  lemma {:induction false} RunInv(run: seq<World>, acts: seq<Act>, i: nat)
    requires IsRun(run, acts) && i < |run|
    ensures Inv(run[i])
    decreases i
  {
    hide StepsTo;
    if i > 0 {
      RunInv(run, acts, i - 1);
      assert Follows(run[i - 1], acts[i - 1], run[i]);
      StepInv(run[i - 1], acts[i - 1], run[i]);
    }
  }

  /** Nothing is done on filesystem k by the acts from i up to j. */
  predicate Idle(acts: seq<Act>, i: nat, j: nat, k: nat)
    requires i <= j <= |acts|
  {
    forall t :: i <= t < j ==> !(acts[t].On? && acts[t].k == k)
  }

  lemma {:induction false} IdleUntouched(run: seq<World>, acts: seq<Act>, i: nat, j: nat, k: nat)
    requires IsRun(run, acts) && i <= j < |run| && k < |run[i].sides| && Idle(acts, i, j, k)
    ensures Untouched(run[i], run[j], k)
    decreases j
  {
    hide StepsTo, SideOk, Apart;
    if i < j {
      IdleUntouched(run, acts, i, j - 1, k);
      RunInv(run, acts, j - 1);
      assert Follows(run[j - 1], acts[j - 1], run[j]);
      StepUntouched(run[j - 1], acts[j - 1], run[j], k);
      RunInv(run, acts, i);
      SideInHeap(run[i], k);
    }
  }

  lemma {:induction false} ClimbInside(h: Heap, h': Heap, dom: set<Id>, root: Id, s: Id, parts: seq<string>)
    requires WF(h, dom, root) && s in dom && forall x :: x in dom ==> x in h' && h'[x] == h[x]
    ensures Climb(h', root, s, parts) == Climb(h, root, s, parts)
    ensures Climb(h, root, s, parts).Ok? ==> Climb(h, root, s, parts).value in dom
    decreases |parts|
  {
    if parts != [] {
      var next := Next(h, root, s, parts[0]);
      assert Next(h', root, s, parts[0]) == next;
      if next.Some? {
        assert IsDir(h, s) ==> DirOk(h, dom, root, s);
        assert IsDir(h, s) && parts[0] in h[s].entries ==> EntryOk(h, dom, root, s, parts[0]);
        ClimbNext(h, root, s, parts);
        ClimbNext(h', root, s, parts);
        ClimbInside(h, h', dom, root, next.value, parts[1..]);
      }
    }
  }

  lemma ResolveInside(h: Heap, h': Heap, dom: set<Id>, root: Id, dir: Id, name: string, parentOnly: bool)
    requires WF(h, dom, root) && dir in dom && forall x :: x in dom ==> x in h' && h'[x] == h[x]
    ensures Resolve(h', root, dir, name, parentOnly) == Resolve(h, root, dir, name, parentOnly)
    ensures Resolve(h, root, dir, name, parentOnly).Ok? ==> Resolve(h, root, dir, name, parentOnly).value.node in dom
  {
    ClimbInside(h, h', dom, root, dir, Followed(name, parentOnly));
  }

  /**
   Whatever is done on other filesystems, and however often any of them is cloned, every name resolves
   as before through every handle of this one, and every node of it is what it was.
   */
  lemma Isolation(run: seq<World>, acts: seq<Act>, i: nat, j: nat, k: nat, dir: Id, name: string, parentOnly: bool)
    requires IsRun(run, acts) && i <= j < |run| && k < |run[i].sides| && Idle(acts, i, j, k)
    requires dir in run[i].sides[k].dom
    ensures k < |run[j].sides| && run[j].sides[k] == run[i].sides[k]
    ensures forall x :: x in run[i].sides[k].dom ==>
              x in run[i].heap && x in run[j].heap && run[j].heap[x] == run[i].heap[x]
    ensures var root := run[i].sides[k].root;
            Resolve(run[j].heap, root, dir, name, parentOnly) == Resolve(run[i].heap, root, dir, name, parentOnly)
  {
    hide StepsTo, IsRun, Resolve;
    IdleUntouched(run, acts, i, j, k);
    RunInv(run, acts, i);
    SideInHeap(run[i], k);
    assert SideOk(run[i], k);
    ResolveInside(run[i].heap, run[j].heap, run[i].sides[k].dom, run[i].sides[k].root, dir, name, parentOnly);
  }

  /**
   A copy is a snapshot: as long as nothing is done on the copy itself, every name resolves in it, with
   its kind and contents, as in the original when it was copied, whatever becomes of the original.
   */
  lemma Snapshot(run: seq<World>, acts: seq<Act>, i: nat, j: nat, dir: Id, name: string, parentOnly: bool)
    requires IsRun(run, acts) && i < j < |run| && acts[i].Copy? && dir in acts[i].m && acts[i].k < |run[i].sides|
    requires run[i].sides[acts[i].k].root in acts[i].m && Idle(acts, i + 1, j, |run[i].sides|)
    ensures var m, root := acts[i].m, run[i].sides[acts[i].k].root;
            var h, h' := run[i].heap, run[j].heap;
            match Resolve(h, root, dir, name, parentOnly)
            case Err(e) => Resolve(h', m[root], m[dir], name, parentOnly) == Err(e)
            case Crash => Resolve(h', m[root], m[dir], name, parentOnly) == Crash
            case Ok(Place(x, base)) =>
              && x in m && Resolve(h', m[root], m[dir], name, parentOnly) == Ok(Place(m[x], base))
              && x in h && m[x] in h' && h'[m[x]].Dir? == h[x].Dir? && (h[x].File? ==> h'[m[x]].data == h[x].data)
  {
    var m, k := acts[i].m, acts[i].k;
    hide IsRun, Resolve, Iso;
    assert Copies(run[i], k, m, run[i + 1]) by {
      RunInv(run, acts, i);
      RunFollows(run, acts, i);
    }
    Isolation(run, acts, i + 1, j, |run[i].sides|, m[dir], name, parentOnly);
    CopyResolve(run[i].heap, run[i + 1].heap, m, run[i].sides[k].root, dir, name, parentOnly);
  }

  lemma RunFollows(run: seq<World>, acts: seq<Act>, i: nat)
    requires IsRun(run, acts) && i < |acts|
    ensures Follows(run[i], acts[i], run[i + 1])
  {
  }
}
