/**
 What the operations answer and what they change, in terms of entries and kinds: for each, exactly when it
 succeeds, exactly when it gives which error, and which entries differ afterwards.
 */
module MemFsResults {
  import opened Common
  import opened MemFsGraph
  import opened MemFsOps
  import opened MemFsTheorems
  import opened MemFsPaths

  /** The entry nm of d leads to to afterwards; every other entry, and every kind, parent and content, is as it was. */
  ghost predicate Rewired(h: Heap, h': Heap, d: Id, nm: string, to: Option<Id>) {
    && (forall x: Id, m, c: Id ::
          Edge(h', x, m, c) <==> if x == d && m == nm then to == Some(c) else Edge(h, x, m, c))
    && (forall x :: x in h ==>
          x in h' && if h[x].Dir? then h'[x].Dir? && h'[x].parent == h[x].parent else h'[x] == h[x])
  }

  ghost predicate HasEntry(h: Heap, d: Id, nm: string) {
    exists c :: Edge(h, d, nm, c)
  }

  // ---- names ----

  /** A name that starts at the root is refused, and so is one that would leave by it. */
  lemma EscapesRefused(h: Heap, root: Id, dir: Id, name: string, parentOnly: bool)
    ensures HasPrefixSlash(name) ==> Resolve(h, root, dir, name, parentOnly) == Err(EPERM)
    ensures Climb(h, root, root, [".."]) == Err(EPERM)
  {
  }

  /** Going into a directory and back up leads nowhere else. */
  lemma DownAndUp(h: Heap, dom: set<Id>, root: Id, d: Id, nm: string, c: Id)
    requires WF(h, dom, root) && d in dom && Edge(h, d, nm, c) && IsDir(h, c)
    ensures Climb(h, root, d, [nm, ".."]) == Ok(d)
  {
    assert DirOk(h, dom, root, d) && EntryOk(h, dom, root, d, nm);
    assert [nm, ".."][1..] == [".."];
    assert Climb(h, root, c, [".."]) == Climb(h, root, d, []);
  }

  /** Names with empty and single-dot components lead where they lead without them. */
  lemma {:induction false} DotsDoNotMatter(h: Heap, root: Id, cur: Id, parts: seq<string>)
    ensures Climb(h, root, cur, parts) == Climb(h, root, cur, Undotted(parts))
    decreases |parts|
  {
    if parts != [] {
      var p := parts[0];
      if p == "" || p == "." {
        DotsDoNotMatter(h, root, cur, parts[1..]);
      } else {
        assert Undotted(parts)[0] == p && Undotted(parts)[1..] == Undotted(parts[1..]);
        var next := Next(h, root, cur, p);
        if next.Some? {
          ClimbNext(h, root, cur, parts);
          ClimbNext(h, root, cur, Undotted(parts));
          DotsDoNotMatter(h, root, next.value, parts[1..]);
        }
      }
    }
  }

  function Undotted(parts: seq<string>): seq<string> {
    if parts == [] then []
    else if parts[0] == "" || parts[0] == "." then Undotted(parts[1..])
    else [parts[0]] + Undotted(parts[1..])
  }

  /**
   A plain name with a slash after it: a file is refused, a directory found. As the name of an entry to make or
   remove, the slash does not count.
   */
  lemma TrailingSlash(h: Heap, root: Id, dir: Id, nm: string)
    requires Normal(nm) && IsDir(h, dir)
    ensures var whole := Resolve(h, root, dir, nm + "/", false);
            if nm !in h[dir].entries then whole == Err(ENOENT)
            else if IsDir(h, h[dir].entries[nm]) then whole == Ok(Place(h[dir].entries[nm], ""))
            else whole == Err(ENOTDIR)
    ensures Resolve(h, root, dir, nm + "/", true) == Ok(Place(dir, nm)) == Resolve(h, root, dir, nm, true)
  {
    SplitPlain(nm);
    SplitPlain("");
    SplitFirst(nm, "");
    assert nm + "/" + "" == nm + "/";
    var parts := Split(nm + "/");
    assert parts == [nm, ""] && parts[1..] == [""] && parts[..1] == [nm] && parts[..1][..0] == [];
    assert StripEmpty(parts) == [nm];
    assert [nm][..0] == [];
    assert (nm + "/")[0] == nm[0] != '/' by { assert nm[0] in nm; }
    if nm in h[dir].entries {
      assert Climb(h, root, h[dir].entries[nm], [""]) == Ok(h[dir].entries[nm]);
    }
  }

  /** An entry to make or remove must have a real name. */
  lemma BaseMustBeNamed(h: Heap, root: Id, dir: Id)
    ensures Resolve(h, root, dir, "", true) == Err(EINVAL)
    ensures Resolve(h, root, dir, ".", true) == Err(EINVAL)
    ensures Resolve(h, root, dir, "..", true) == Err(EINVAL)
  {
    SplitPlain("");
    SplitPlain(".");
    SplitPlain("..");
  }

  // ---- mkdir, rmdir, unlink ----

  lemma MkdirResult(h: Heap, dom: set<Id>, root: Id, dir: Id, name: string, id: Id)
    requires WF(h, dom, root) && dir in dom && id !in h
    ensures var out, at := Mkdir(h, dom, root, dir, name, id), Resolve(h, root, dir, name, true);
            match at
            case Err(e) => out == Outcome(h, Err(e))
            case Crash => out == Outcome(h, Crash)
            case Ok(Place(d, base)) =>
              if HasEntry(h, d, base) then out == Outcome(h, Err(EEXIST))
              else
                && out.res == Ok(()) && Rewired(h, out.heap, d, base, Some(id))
                && out.heap.Keys == h.Keys + {id} && out.heap[id] == Dir(map[], d)
  {
    hide WF, Resolve;
    ResolveStays(h, dom, root, dir, name, true);
    DomInHeap(h, dom, root);
    var at := Resolve(h, root, dir, name, true);
    if at.Ok? {
      var d, base := at.value.node, at.value.base;
      assert base in h[d].entries ==> Edge(h, d, base, h[d].entries[base]);
    }
  }

  lemma RmdirResult(h: Heap, dom: set<Id>, root: Id, dir: Id, name: string)
    requires WF(h, dom, root) && dir in dom
    ensures var out, at := Rmdir(h, dom, root, dir, name), Resolve(h, root, dir, name, true);
            match at
            case Err(e) => out == Outcome(h, Err(e))
            case Crash => out == Outcome(h, Crash)
            case Ok(Place(d, base)) =>
              && (out.res == Err(ENOENT) <==> !HasEntry(h, d, base))
              && (forall c :: Edge(h, d, base, c) ==>
                    && (out.res == Err(ENOTDIR) <==> !IsDir(h, c))
                    && (out.res == Err(ENOTEMPTY) <==> exists m :: HasEntry(h, c, m))
                    && (out.res == Ok(()) <==> IsDir(h, c) && forall m :: !HasEntry(h, c, m)))
              && (if out.res.Ok? then Rewired(h, out.heap, d, base, None) else out.heap == h)
  {
    hide WF;
    ResolveStays(h, dom, root, dir, name, true);
    var at := Resolve(h, root, dir, name, true);
    if at.Ok? && at.value.base in h[at.value.node].entries {
      var c := h[at.value.node].entries[at.value.base];
      assert Edge(h, at.value.node, at.value.base, c);
      SomeEntry(h, c);
    }
  }

  /** A directory has no entry exactly when its table is empty. */
  lemma SomeEntry(h: Heap, c: Id)
    ensures (exists m :: HasEntry(h, c, m)) <==> IsDir(h, c) && h[c].entries != map[]
  {
    if IsDir(h, c) && h[c].entries != map[] {
      var m :| m in h[c].entries;
      assert Edge(h, c, m, h[c].entries[m]);
      assert HasEntry(h, c, m);
    }
  }

  lemma UnlinkResult(h: Heap, dom: set<Id>, root: Id, dir: Id, name: string)
    requires WF(h, dom, root) && dir in dom
    ensures var out, at := Unlink(h, dom, root, dir, name), Resolve(h, root, dir, name, true);
            match at
            case Err(e) => out == Outcome(h, Err(e))
            case Crash => out == Outcome(h, Crash)
            case Ok(Place(d, base)) =>
              && (out.res == Err(ENOENT) <==> !HasEntry(h, d, base))
              && (forall c :: Edge(h, d, base, c) ==>
                    (out.res == Err(EISDIR) <==> IsDir(h, c)) && (out.res == Ok(()) <==> !IsDir(h, c)))
              && (if out.res.Ok? then Rewired(h, out.heap, d, base, None) else out.heap == h)
  {
    hide WF;
    ResolveStays(h, dom, root, dir, name, true);
    var at := Resolve(h, root, dir, name, true);
    if at.Ok? && at.value.base in h[at.value.node].entries {
      assert Edge(h, at.value.node, at.value.base, h[at.value.node].entries[at.value.base]);
    }
  }

  // ---- open ----

  /** What opening the node n itself answers, and the contents it leaves. */
  ghost predicate OpensNode(h: Heap, out: Outcome<Id>, n: Id, fl: Flags) {
    && n in h
    && out.res == (if IsDir(h, n) && (fl.writable || fl.trunc) then Err(EISDIR) else Ok(n))
    && out.heap.Keys == h.Keys && n in out.heap
    && (forall x :: x in h && x != n ==> out.heap[x] == h[x])
    && out.heap[n] == if h[n].File? && fl.trunc && fl.writable then File([]) else h[n]
  }

  /**
   Opening a name that is there gives its node, unless it was to be made and no other allowed, and cuts a file
   exactly when asked to and open for writing; one that is not there is made exactly when asked for.
   */
  lemma OpenResult(h: Heap, dom: set<Id>, root: Id, dir: Id, name: string, fl: Flags, id: Id)
    requires WF(h, dom, root) && dir in dom && id !in h
    ensures var out, at := Open(h, dom, root, dir, name, fl, id), Resolve(h, root, dir, name, fl.creat);
            match at
            case Err(e) => out == Outcome(h, Err(e))
            case Crash => out == Outcome(h, Crash)
            case Ok(Place(d, base)) =>
              if !fl.creat then OpensNode(h, out, d, fl)
              else if !HasEntry(h, d, base) then
                out.res == Ok(id) && Rewired(h, out.heap, d, base, Some(id))
                && out.heap.Keys == h.Keys + {id} && out.heap[id] == File([])
              else if fl.excl then out == Outcome(h, Err(EEXIST))
              else forall c :: Edge(h, d, base, c) ==> OpensNode(h, out, c, fl)
  {
    hide WF, Opened;
    ResolveStays(h, dom, root, dir, name, fl.creat);
    DomInHeap(h, dom, root);
    var at := Resolve(h, root, dir, name, fl.creat);
    if at.Ok? {
      var d, base := at.value.node, at.value.base;
      if !fl.creat {
        OpenedNode(h, d, fl);
      } else if base in h[d].entries {
        EntryInDom(h, dom, root, d, base);
        assert Edge(h, d, base, h[d].entries[base]);
        OpenedNode(h, h[d].entries[base], fl);
      } else {
        MadeFile(h, d, base, id, fl);
      }
    }
  }

  lemma OpenedNode(h: Heap, n: Id, fl: Flags)
    requires n in h
    ensures OpensNode(h, Opened(h, n, fl), n, fl)
  {
  }

  lemma MadeFile(h: Heap, d: Id, base: string, id: Id, fl: Flags)
    requires IsDir(h, d) && base !in h[d].entries && id !in h
    ensures var out := Opened(AddEntry(h[id := File([])], d, base, id), id, fl);
            && out.res == Ok(id) && Rewired(h, out.heap, d, base, Some(id))
            && out.heap.Keys == h.Keys + {id} && out.heap[id] == File([])
  {
    var h' := AddEntry(h[id := File([])], d, base, id);
    assert Opened(h', id, fl).heap == h';
  }

  // ---- rename and link ----

  /** The two names of a rename are resolved in this order, and the first that fails decides. */
  lemma RenameNames(h: Heap, root: Id, dir: Id, oldName: string, o: Other, newName: string)
    ensures var r := RenameEnds(h, root, dir, oldName, o, newName);
            var from, to := Resolve(h, root, dir, oldName, true), Resolve(h, root, o.node, newName, true);
            && (!o.sameFs ==> r == Err(EXDEV))
            && (o.sameFs && !IsDir(h, o.node) ==> r == Err(ENOTDIR))
            && (o.sameFs && IsDir(h, o.node) ==>
                  && (from.Err? ==> r == Err(from.error)) && (from.Crash? ==> r == Crash)
                  && (from.Ok? && to.Err? ==> r == Err(to.error)) && (from.Ok? && to.Crash? ==> r == Crash)
                  && (from.Ok? && to.Ok? ==>
                        r == Ok(Ends(from.value.node, from.value.base, to.value.node, to.value.base))))
  {
  }

  /**
   Once both names are resolved, a rename of n: it is ENOENT exactly when there is no n, nothing happens when the
   new entry holds n already, and otherwise RenameAnswers says when it succeeds and when it gives which error.
   */
  lemma RenameResult(h: Heap, dom: set<Id>, root: Id, dir: Id, oldName: string, o: Other, newName: string)
    requires WF(h, dom, root) && dir in dom && (o.sameFs ==> o.node in dom)
    requires RenameEnds(h, root, dir, oldName, o, newName).Ok?
    ensures var out := Rename(h, dom, root, dir, oldName, o, newName);
            var e := RenameEnds(h, root, dir, oldName, o, newName).value;
            && (out.res == Err(ENOENT) <==> !HasEntry(h, e.od, e.ob))
            && forall n :: Edge(h, e.od, e.ob, n) ==>
                 && (Edge(h, e.nd, e.nb, n) ==> out == Outcome(h, Ok(())))
                 && (!Edge(h, e.nd, e.nb, n) ==> RenameAnswers(h, root, e, n, out.res))
  {
    hide WF, Moved, Resolve;
    RenameEndsOk(h, dom, root, dir, oldName, o, newName);
    var e := RenameEnds(h, root, dir, oldName, o, newName).value;
    if e.ob in h[e.od].entries {
      assert Edge(h, e.od, e.ob, h[e.od].entries[e.ob]);
    }
    if e.nb in h[e.nd].entries {
      var t := h[e.nd].entries[e.nb];
      assert Edge(h, e.nd, e.nb, t);
      SomeEntry(h, t);
    }
  }

  /** The answers to a rename of n to an entry that does not hold it. */
  ghost predicate RenameAnswers(h: Heap, root: Id, e: Ends, n: Id, res: Res<()>) {
    var inside := IsDir(h, n) && Ancestor(h, root, n, e.nd);
    && (!HasEntry(h, e.nd, e.nb) ==> res == if inside then Err(EINVAL) else Ok(()))
    && (forall t :: Edge(h, e.nd, e.nb, t) ==>
          && (IsDir(h, n) && !IsDir(h, t) ==> res == Err(ENOTDIR))
          && (!IsDir(h, n) && IsDir(h, t) ==> res == Err(EISDIR))
          && (!IsDir(h, n) && !IsDir(h, t) ==> res == Ok(()))
          && (IsDir(h, n) && IsDir(h, t) && (exists m :: HasEntry(h, t, m)) ==> res == Err(ENOTEMPTY))
          && (IsDir(h, n) && IsDir(h, t) && (forall m :: !HasEntry(h, t, m)) ==>
                res == if inside then Err(EINVAL) else Ok(())))
  }

  /** A link to a file is made exactly when the new name is free; a directory is never linked. */
  lemma LinkResult(h: Heap, dom: set<Id>, root: Id, dir: Id, oldName: string, o: Other, newName: string)
    requires WF(h, dom, root) && dir in dom && (o.sameFs ==> o.node in dom)
    ensures var out := Link(h, dom, root, dir, oldName, o, newName);
            var from, to := Resolve(h, root, dir, oldName, false), Resolve(h, root, o.node, newName, true);
            if !o.sameFs then out == Outcome(h, Err(EXDEV))
            else if !IsDir(h, o.node) then out == Outcome(h, Err(ENOTDIR))
            else if from.Err? then out == Outcome(h, Err(from.error))
            else if from.Crash? then out == Outcome(h, Crash)
            else if IsDir(h, from.value.node) then out == Outcome(h, Err(EPERM))
            else if to.Err? then out == Outcome(h, Err(to.error))
            else if to.Crash? then out == Outcome(h, Crash)
            else if HasEntry(h, to.value.node, to.value.base) then out == Outcome(h, Err(EEXIST))
            else out.res == Ok(()) && Rewired(h, out.heap, to.value.node, to.value.base, Some(from.value.node))
  {
    hide WF;
    if o.sameFs {
      ResolveStays(h, dom, root, o.node, newName, true);
      ResolveStays(h, dom, root, dir, oldName, false);
      var to := Resolve(h, root, o.node, newName, true);
      if to.Ok? && to.value.base in h[to.value.node].entries {
        assert Edge(h, to.value.node, to.value.base, h[to.value.node].entries[to.value.base]);
      }
    }
  }
}
