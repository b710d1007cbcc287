/**
 The namespace operations as functions from a heap to a heap and a result, with
 every error the code reports, and what holds of them over every run.
 */
module MemFsOps {
  import opened Common
  import opened MemFsGraph

  datatype Errno = EPERM | EINVAL | ENOTDIR | ENOENT | EEXIST | EISDIR | ENOTEMPTY | EXDEV

  /** Crash is a nil dereference. */
  datatype Res<+T> = Ok(value: T) | Err(error: Errno) | Crash

  datatype Place = Place(node: Id, base: string)

  datatype Outcome<+T> = Outcome(heap: Heap, res: Res<T>)

  // ---- names ----

  /** strings.Split(s, "/"). */
  function Split(s: string): (parts: seq<string>)
    ensures |parts| > 0
    ensures forall i :: 0 <= i < |parts| ==> '/' !in parts[i]
  {
    if s == "" then [""]
    else
      var rest := Split(s[1..]);
      if s[0] == '/' then [""] + rest
      else [[s[0]] + rest[0]] + rest[1..]
  }

  function Join(parts: seq<string>): string
    requires |parts| > 0
  {
    if |parts| == 1 then parts[0] else parts[0] + "/" + Join(parts[1..])
  }

  /** Splitting loses nothing: joining the components gives the name back. */
  lemma {:induction false} JoinSplit(s: string)
    ensures Join(Split(s)) == s
  {
    if s != "" {
      JoinSplit(s[1..]);
      var rest := Split(s[1..]);
      if s[0] == '/' {
        assert ([""] + rest)[1..] == rest;
      } else if |rest| > 1 {
        assert ([[s[0]] + rest[0]] + rest[1..])[1..] == rest[1..];
      }
    }
  }

  lemma {:induction false} SplitPlain(s: string)
    requires '/' !in s
    ensures Split(s) == [s]
  {
    if s != "" {
      SplitPlain(s[1..]);
      assert s == [s[0]] + s[1..];
    }
  }

  lemma {:induction false} SplitFirst(a: string, b: string)
    requires '/' !in a
    ensures Split(a + "/" + b) == [a] + Split(b)
  {
    if a == "" {
      assert (a + "/" + b)[1..] == b;
    } else {
      assert (a + "/" + b)[1..] == a[1..] + "/" + b;
      SplitFirst(a[1..], b);
      assert a == [a[0]] + a[1..];
    }
  }

  predicate HasPrefixSlash(name: string) {
    name != "" && name[0] == '/'
  }

  predicate HasSuffixSlash(name: string) {
    name != "" && name[|name| - 1] == '/'
  }

  function StripEmpty(parts: seq<string>): (r: seq<string>)
    requires |parts| > 0
    ensures 0 < |r| <= |parts| && r == parts[..|r|]
  {
    if |parts| > 1 && parts[|parts| - 1] == "" then StripEmpty(parts[..|parts| - 1]) else parts
  }

  // ---- resolve ----

  /** Resolves components from cur; ".." of a regular file is a nil node, which is then dereferenced. */
  function Climb(h: Heap, root: Id, cur: Id, parts: seq<string>): Res<Id>
    decreases |parts|
  {
    if parts == [] then Ok(cur)
    else if parts[0] == "" || parts[0] == "." then Climb(h, root, cur, parts[1..])
    else if parts[0] == ".." then
      if cur == root then Err(EPERM)
      else if !IsDir(h, cur) then Crash
      else Climb(h, root, h[cur].parent, parts[1..])
    else if !IsDir(h, cur) then Err(ENOTDIR)
    else if parts[0] !in h[cur].entries then Err(ENOENT)
    else Climb(h, root, h[cur].entries[parts[0]], parts[1..])
  }

  function Resolve(h: Heap, root: Id, dir: Id, name: string, parentOnly: bool): Res<Place> {
    if HasPrefixSlash(name) then Err(EPERM)
    else
      var all := if parentOnly then StripEmpty(Split(name)) else Split(name);
      var base := if parentOnly then all[|all| - 1] else "";
      var parts := if parentOnly then all[..|all| - 1] else all;
      if parentOnly && (base == "" || base == "." || base == "..") then Err(EINVAL)
      else
        match Climb(h, root, dir, parts)
        case Err(e) => Err(e)
        case Crash => Crash
        case Ok(x) =>
          if !IsDir(h, x) && (parentOnly || HasSuffixSlash(name)) then Err(ENOTDIR)
          else Ok(Place(x, base))
  }

  lemma {:induction false} ClimbStays(h: Heap, dom: set<Id>, root: Id, cur: Id, parts: seq<string>)
    requires WF(h, dom, root) && cur in dom
    ensures Climb(h, root, cur, parts).Ok? ==> Climb(h, root, cur, parts).value in dom
    decreases |parts|
  {
    if parts != [] {
      if parts[0] == "" || parts[0] == "." {
        ClimbStays(h, dom, root, cur, parts[1..]);
      } else if IsDir(h, cur) {
        assert DirOk(h, dom, root, cur);
        if parts[0] == ".." {
          ClimbStays(h, dom, root, h[cur].parent, parts[1..]);
        } else if parts[0] in h[cur].entries {
          assert EntryOk(h, dom, root, cur, parts[0]);
          ClimbStays(h, dom, root, h[cur].entries[parts[0]], parts[1..]);
        }
      }
    }
  }

  /** A resolved place is in the filesystem; a parent is a directory and its base a real name. */
  lemma ResolveStays(h: Heap, dom: set<Id>, root: Id, dir: Id, name: string, parentOnly: bool)
    requires WF(h, dom, root) && dir in dom
    ensures var r := Resolve(h, root, dir, name, parentOnly);
            r.Ok? ==> r.value.node in dom && (parentOnly ==> IsDir(h, r.value.node) && Normal(r.value.base))
  {
    var all := if parentOnly then StripEmpty(Split(name)) else Split(name);
    ClimbStays(h, dom, root, dir, if parentOnly then all[..|all| - 1] else all);
  }

  /** Resolving crashes exactly on a name that asks for ".." of something that is not a directory. */
  lemma {:induction false} ClimbCrash(h: Heap, root: Id, cur: Id, parts: seq<string>)
    ensures Climb(h, root, cur, parts) == Crash <==> exists i :: CrashesAt(h, root, cur, parts, i)
    decreases |parts|
  {
    if parts != [] {
      var p := parts[0];
      if p == ".." && cur != root && !IsDir(h, cur) {
        assert parts[..0] == [];
        assert CrashesAt(h, root, cur, parts, 0);
      } else if p == "" || p == "." {
        ClimbCrashStep(h, root, cur, parts, cur);
      } else if p == ".." && cur != root {
        ClimbCrashStep(h, root, cur, parts, h[cur].parent);
      } else if p != ".." && IsDir(h, cur) && p in h[cur].entries {
        ClimbCrashStep(h, root, cur, parts, h[cur].entries[p]);
      } else {
        forall i ensures !CrashesAt(h, root, cur, parts, i) {
          if 0 < i < |parts| { assert parts[..i][0] == p; }
        }
      }
    }
  }

  /** The smallest such name, in a filesystem of one file. */
  lemma FileDotDotCrashes(data: seq<bv8>)
    ensures var h := map[0 := Dir(map["f" := 1], 0), 1 := File(data)];
            WF(h, {0, 1}, 0) && Resolve(h, 0, 0, "f/..", false) == Crash
  {
    var h := map[0 := Dir(map["f" := 1], 0), 1 := File(data)];
    assert Chain(h, 0, 0, 0);
    SplitPlain("..");
    SplitFirst("f", "..");
    assert "f" + "/" + ".." == "f/..";
    var parts := Split("f/..");
    assert parts == ["f", ".."] && parts[1..] == [".."];
    assert "f" != "." && "f" != ".." && parts[0] == "f";
    assert Climb(h, 0, 1, [".."]) == Crash;
    assert Climb(h, 0, 0, parts) == Crash;
  }

  predicate CrashesAt(h: Heap, root: Id, cur: Id, parts: seq<string>, i: int) {
    && 0 <= i < |parts| && parts[i] == ".."
    && var x := Climb(h, root, cur, parts[..i]);
    x.Ok? && x.value != root && !IsDir(h, x.value)
  }

  lemma {:induction false} ClimbCrashStep(h: Heap, root: Id, cur: Id, parts: seq<string>, next: Id)
    requires parts != []
    requires forall q: seq<string> :: q != [] && q[0] == parts[0] ==>
               Climb(h, root, cur, q) == Climb(h, root, next, q[1..])
    requires !CrashesAt(h, root, cur, parts, 0)
    ensures Climb(h, root, cur, parts) == Crash <==> exists i :: CrashesAt(h, root, cur, parts, i)
    decreases |parts|, 0
  {
    ClimbCrash(h, root, next, parts[1..]);
    forall i | 0 < i < |parts|
      ensures CrashesAt(h, root, cur, parts, i) <==> CrashesAt(h, root, next, parts[1..], i - 1)
    {
      assert parts[..i][1..] == parts[1..][..i - 1];
      assert parts[..i][0] == parts[0];
    }
    forall i | CrashesAt(h, root, next, parts[1..], i)
      ensures CrashesAt(h, root, cur, parts, i + 1)
    {
      assert (i + 1) - 1 == i;
    }
  }

  /** Without "..", resolving is walking along the names that are not "" or ".". */
  function Names(parts: seq<string>): seq<string> {
    if parts == [] then []
    else if parts[0] == "" || parts[0] == "." then Names(parts[1..])
    else [parts[0]] + Names(parts[1..])
  }

  lemma {:induction false} ClimbIsWalk(h: Heap, root: Id, cur: Id, parts: seq<string>)
    requires ".." !in parts
    ensures match Walk(h, cur, Names(parts))
            case Some(x) => Climb(h, root, cur, parts) == Ok(x)
            case None => Climb(h, root, cur, parts).Err?
    decreases |parts|
  {
    if parts != [] {
      if parts[0] == "" || parts[0] == "." {
        ClimbIsWalk(h, root, cur, parts[1..]);
      } else if IsDir(h, cur) && parts[0] in h[cur].entries {
        assert ([parts[0]] + Names(parts[1..]))[1..] == Names(parts[1..]);
        ClimbIsWalk(h, root, h[cur].entries[parts[0]], parts[1..]);
      }
    }
  }

  // ---- operations ----

  /** The open flags that matter to the namespace and contents. */
  datatype Flags = Flags(creat: bool, excl: bool, trunc: bool, writable: bool)

  function Opened(h: Heap, n: Id, fl: Flags): Outcome<Id>
    requires n in h
  {
    if h[n].Dir? then
      Outcome(h, if fl.writable || fl.trunc then Err(EISDIR) else Ok(n))
    else if fl.trunc && fl.writable then Outcome(h[n := File([])], Ok(n))
    else Outcome(h, Ok(n))
  }

  /** OpenAt; id is the address a new node would get. */
  function Open(h: Heap, dom: set<Id>, root: Id, dir: Id, name: string, fl: Flags, id: Id): Outcome<Id>
    requires WF(h, dom, root) && dir in dom && id !in h
  {
    ResolveStays(h, dom, root, dir, name, fl.creat);
    match Resolve(h, root, dir, name, fl.creat)
    case Err(e) => Outcome(h, Err(e))
    case Crash => Outcome(h, Crash)
    case Ok(Place(d, base)) =>
      if !fl.creat then Opened(h, d, fl)
      else if base in h[d].entries then
        assert DirOk(h, dom, root, d) && EntryOk(h, dom, root, d, base);
        if fl.excl then Outcome(h, Err(EEXIST)) else Opened(h, h[d].entries[base], fl)
      else Opened(AddEntry(h[id := File([])], d, base, id), id, fl)
  }

  function Mkdir(h: Heap, dom: set<Id>, root: Id, dir: Id, name: string, id: Id): Outcome<()>
    requires WF(h, dom, root) && dir in dom && id !in h
  {
    ResolveStays(h, dom, root, dir, name, true);
    match Resolve(h, root, dir, name, true)
    case Err(e) => Outcome(h, Err(e))
    case Crash => Outcome(h, Crash)
    case Ok(Place(d, base)) =>
      if base in h[d].entries then Outcome(h, Err(EEXIST))
      else Outcome(AddEntry(h[id := Dir(map[], d)], d, base, id), Ok(()))
  }

  function Rmdir(h: Heap, dom: set<Id>, root: Id, dir: Id, name: string): Outcome<()>
    requires WF(h, dom, root) && dir in dom
  {
    ResolveStays(h, dom, root, dir, name, true);
    match Resolve(h, root, dir, name, true)
    case Err(e) => Outcome(h, Err(e))
    case Crash => Outcome(h, Crash)
    case Ok(Place(d, base)) =>
      if base !in h[d].entries then Outcome(h, Err(ENOENT))
      else if !IsDir(h, h[d].entries[base]) then Outcome(h, Err(ENOTDIR))
      else if h[h[d].entries[base]].entries != map[] then Outcome(h, Err(ENOTEMPTY))
      else Outcome(RemoveEntry(h, d, base), Ok(()))
  }

  function Unlink(h: Heap, dom: set<Id>, root: Id, dir: Id, name: string): Outcome<()>
    requires WF(h, dom, root) && dir in dom
  {
    ResolveStays(h, dom, root, dir, name, true);
    match Resolve(h, root, dir, name, true)
    case Err(e) => Outcome(h, Err(e))
    case Crash => Outcome(h, Crash)
    case Ok(Place(d, base)) =>
      if base !in h[d].entries then Outcome(h, Err(ENOENT))
      else if IsDir(h, h[d].entries[base]) then Outcome(h, Err(EISDIR))
      else Outcome(RemoveEntry(h, d, base), Ok(()))
  }

  /** The directory handle given for the new name: whether it is of this filesystem, and its node. */
  datatype Other = Other(sameFs: bool, node: Id)

  function OtherDir(h: Heap, o: Other): Res<Id> {
    if !o.sameFs then Err(EXDEV)
    else if !IsDir(h, o.node) then Err(ENOTDIR)
    else Ok(o.node)
  }

  /** Both ends of a rename or link, resolved: the old one as parent and base. */
  datatype Ends = Ends(od: Id, ob: string, nd: Id, nb: string)

  function RenameEnds(h: Heap, root: Id, dir: Id, oldName: string, o: Other, newName: string): Res<Ends> {
    match OtherDir(h, o)
    case Err(e) => Err(e)
    case Crash => Crash
    case Ok(nd) =>
      match Resolve(h, root, dir, oldName, true)
      case Err(e) => Err(e)
      case Crash => Crash
      case Ok(Place(od, ob)) =>
        match Resolve(h, root, nd, newName, true)
        case Err(e) => Err(e)
        case Crash => Crash
        case Ok(Place(d, nb)) => Ok(Ends(od, ob, d, nb))
  }

  /** Both parents are directories of the filesystem and both bases real names. */
  ghost predicate EndsOk(h: Heap, dom: set<Id>, e: Ends) {
    && e.od in dom && IsDir(h, e.od) && Normal(e.ob)
    && e.nd in dom && IsDir(h, e.nd) && Normal(e.nb)
  }

  lemma RenameEndsOk(h: Heap, dom: set<Id>, root: Id, dir: Id, oldName: string, o: Other, newName: string)
    requires WF(h, dom, root) && dir in dom && (o.sameFs ==> o.node in dom)
    ensures var r := RenameEnds(h, root, dir, oldName, o, newName); r.Ok? ==> EndsOk(h, dom, r.value)
  {
    ResolveStays(h, dom, root, dir, oldName, true);
    if o.sameFs { ResolveStays(h, dom, root, o.node, newName, true); }
  }

  /** Why a rename from e.od/e.ob to e.nd/e.nb is refused, if it is. */
  ghost function RenameRefusal(h: Heap, root: Id, e: Ends): Option<Errno>
    requires IsDir(h, e.od) && IsDir(h, e.nd)
  {
    if e.ob !in h[e.od].entries then Some(ENOENT)
    else
      var n := h[e.od].entries[e.ob];
      if Edge(h, e.nd, e.nb, n) then None
      else if e.nb in h[e.nd].entries && IsDir(h, n) && !IsDir(h, h[e.nd].entries[e.nb]) then Some(ENOTDIR)
      else if e.nb in h[e.nd].entries && !IsDir(h, n) && IsDir(h, h[e.nd].entries[e.nb]) then Some(EISDIR)
      else if e.nb in h[e.nd].entries && IsDir(h, h[e.nd].entries[e.nb])
              && h[h[e.nd].entries[e.nb]].entries != map[] then Some(ENOTEMPTY)
      else if IsDir(h, n) && Ancestor(h, root, n, e.nd) then Some(EINVAL)
      else None
  }

  /** The heap after n moved from one entry to the other. */
  function Moved(h: Heap, e: Ends, n: Id): Heap
    requires IsDir(h, e.od) && IsDir(h, e.nd)
  {
    var h1 := RemoveEntry(h, e.od, e.ob);
    var h2 := if IsDir(h1, n) then SetParent(h1, n, e.nd) else h1;
    AddEntry(h2, e.nd, e.nb, n)
  }

  ghost function Rename(h: Heap, dom: set<Id>, root: Id, dir: Id, oldName: string, o: Other, newName: string)
    : Outcome<()>
    requires WF(h, dom, root) && dir in dom && (o.sameFs ==> o.node in dom)
  {
    RenameEndsOk(h, dom, root, dir, oldName, o, newName);
    match RenameEnds(h, root, dir, oldName, o, newName)
    case Err(e) => Outcome(h, Err(e))
    case Crash => Outcome(h, Crash)
    case Ok(e) =>
      match RenameRefusal(h, root, e)
      case Some(err) => Outcome(h, Err(err))
      case None =>
        var n := h[e.od].entries[e.ob];
        Outcome(if Edge(h, e.nd, e.nb, n) then h else Moved(h, e, n), Ok(()))
  }

  function Link(h: Heap, dom: set<Id>, root: Id, dir: Id, oldName: string, o: Other, newName: string): Outcome<()>
    requires WF(h, dom, root) && dir in dom && (o.sameFs ==> o.node in dom)
  {
    match OtherDir(h, o)
    case Err(e) => Outcome(h, Err(e))
    case Crash => Outcome(h, Crash)
    case Ok(nd) =>
      ResolveStays(h, dom, root, nd, newName, true);
      match Resolve(h, root, dir, oldName, false)
      case Err(e) => Outcome(h, Err(e))
      case Crash => Outcome(h, Crash)
      case Ok(Place(n, _)) =>
        if IsDir(h, n) then Outcome(h, Err(EPERM))
        else
          match Resolve(h, root, nd, newName, true)
          case Err(e) => Outcome(h, Err(e))
          case Crash => Outcome(h, Crash)
          case Ok(Place(d, base)) =>
            if base in h[d].entries then Outcome(h, Err(EEXIST))
            else Outcome(AddEntry(h, d, base, n), Ok(()))
  }
}
