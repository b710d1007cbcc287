/**
 Shared memory: segments with their counts, the table and names they are found by, and the
 processes that map them. A process's memory is the map from its pages to segments.
 */
module ShmState {
  import opened Common

  const PAGE := 65536

  type SegId = nat
  type Pid = nat
  type FileId = nat

  /**
   A segment object. size is nil until it is sized, and again once it is freed; opens and closes count how often
   memory was made for it and given back.
   */
  datatype Seg = Seg(size: Option<nat>, attached: int, fds: int, removed: bool, opens: nat, closes: nat)

  datatype Att = Att(addr: nat, len: nat, s: SegId)

  /** pages maps a page to the segment it shows and the page of that segment. */
  datatype Proc = Proc(committed: nat, pages: map<nat, (SegId, nat)>, atts: seq<Att>)

  /** segs holds every segment ever made; table those that are in the shmTable; files the shm files not released. */
  datatype Shm = Shm(segs: map<SegId, Seg>, table: set<SegId>, names: map<string, SegId>, next: SegId,
                     procs: map<Pid, Proc>, files: map<FileId, SegId>)

  // ---- the true counts ----

  function Count(atts: seq<Att>, s: SegId): nat {
    if atts == [] then 0 else (if atts[0].s == s then 1 else 0) + Count(atts[1..], s)
  }

  ghost function Counts(procs: map<Pid, Proc>, s: SegId): map<Pid, nat> {
    map p | p in procs :: Count(procs[p].atts, s)
  }

  /** How many attachments to s there are. */
  ghost function Attached(procs: map<Pid, Proc>, s: SegId): nat {
    Sum(Counts(procs, s))
  }

  function Holders(files: map<FileId, SegId>, s: SegId): set<FileId> {
    set f | f in files && files[f] == s
  }

  lemma {:induction false} CountConcat(a: seq<Att>, b: seq<Att>, s: SegId)
    ensures Count(a + b, s) == Count(a, s) + Count(b, s)
    decreases |a|
  {
    if a == [] {
      assert a + b == b;
    } else {
      assert (a + b)[1..] == a[1..] + b;
      CountConcat(a[1..], b, s);
    }
  }

  lemma CountOne(a: Att, s: SegId)
    ensures Count([a], s) == if a.s == s then 1 else 0
  {
    assert [a][1..] == [];
    assert Count([], s) == 0;
  }

  /** Taking out one attachment takes one off the count of its segment. */
  lemma CountWithout(atts: seq<Att>, k: nat, s: SegId)
    requires k < |atts|
    ensures Count(atts, s) == Count(atts[..k] + atts[k + 1..], s) + if atts[k].s == s then 1 else 0
  {
    assert atts == atts[..k] + ([atts[k]] + atts[k + 1..]);
    CountConcat(atts[..k], [atts[k]] + atts[k + 1..], s);
    CountConcat([atts[k]], atts[k + 1..], s);
    CountConcat(atts[..k], atts[k + 1..], s);
    CountOne(atts[k], s);
  }

  lemma {:induction false} CountPositive(atts: seq<Att>, k: nat)
    requires k < |atts|
    ensures Count(atts, atts[k].s) > 0
  {
    if k > 0 {
      CountPositive(atts[1..], k - 1);
    }
  }

  lemma AttachedUpdate(procs: map<Pid, Proc>, p: Pid, pr: Proc, s: SegId)
    ensures Attached(procs[p := pr], s) ==
            Attached(procs, s) + Count(pr.atts, s) - (if p in procs then Count(procs[p].atts, s) else 0)
  {
    SumSet(Counts(procs, s), p, Count(pr.atts, s));
    assert Counts(procs[p := pr], s) == Counts(procs, s)[p := Count(pr.atts, s)];
  }

  lemma AttachedPositive(procs: map<Pid, Proc>, p: Pid, k: nat)
    requires p in procs && k < |procs[p].atts|
    ensures Attached(procs, procs[p].atts[k].s) > 0
  {
    var s := procs[p].atts[k].s;
    CountPositive(procs[p].atts, k);
    SumTake(Counts(procs, s), p);
  }

  // ---- the invariant ----

  /** attached and fds are the true numbers, and a segment is in the table exactly until it is removed and unused. */
  ghost predicate SegOk(st: Shm, s: SegId)
    requires s in st.segs
  {
    var g := st.segs[s];
    && g.attached == Attached(st.procs, s) && g.fds == |Holders(st.files, s)|
    && (s in st.table <==> !(g.removed && g.attached == 0 && g.fds == 0))
    && (g.size.Some? <==> s in st.table && g.opens == 1)
    && g.opens <= 1 && g.closes == (if s in st.table then 0 else g.opens)
    && s < st.next
  }

  ghost predicate AttOk(st: Shm, a: Att) {
    && a.s in st.segs && st.segs[a.s].size.Some? && a.len <= st.segs[a.s].size.value
    && a.addr % PAGE == 0 && a.len % PAGE == 0 && a.len > 0
  }

  /** Everything but that mapped pages are covered. */
  ghost predicate CountsOk(st: Shm) {
    && st.table <= st.segs.Keys
    && (forall s :: s in st.segs ==> SegOk(st, s))
    && (forall p, k :: p in st.procs && 0 <= k < |st.procs[p].atts| ==> AttOk(st, st.procs[p].atts[k]))
    && (forall f :: f in st.files ==> st.files[f] in st.segs)
    && NamesOk(st)
  }

  /** A name leads to a segment in the table that is not removed, and different names to different ones. */
  ghost predicate NamesOk(st: Shm)
    requires st.table <= st.segs.Keys
  {
    && (forall n :: n in st.names ==> st.names[n] in st.table && !st.segs[st.names[n]].removed)
    && (forall n, n' :: n in st.names && n' in st.names && st.names[n] == st.names[n'] ==> n == n')
  }

  predicate Covers(a: Att, page: nat) {
    a.addr <= page * PAGE < a.addr + a.len
  }

  /** The attachment covers the page, which is to show what v says: its segment, and the page of it that lies there. */
  predicate Explains(a: Att, page: nat, v: (SegId, nat)) {
    a.s == v.0 && Covers(a, page) && v.1 == page - a.addr / PAGE
  }

  /** Every page that shows a segment is covered by an attachment to it, and shows the page of it that lies there. */
  ghost predicate Covered(pr: Proc) {
    forall page :: page in pr.pages ==> CoveredAt(pr.atts, page, pr.pages[page])
  }

  ghost predicate CoveredAt(atts: seq<Att>, page: nat, v: (SegId, nat)) {
    exists k :: 0 <= k < |atts| && Explains(atts[k], page, v)
  }

  ghost predicate Inv(st: Shm) {
    CountsOk(st) && forall p :: p in st.procs ==> Covered(st.procs[p])
  }

  /** No segment that is mapped or open has been freed, and one that is removed and unused has been. */
  lemma FreedExactlyWhenUnused(st: Shm, s: SegId)
    requires Inv(st) && s in st.segs
    ensures s !in st.table <==> st.segs[s].removed && Attached(st.procs, s) == 0 && Holders(st.files, s) == {}
    ensures (exists f :: f in st.files && st.files[f] == s) ==> s in st.table
    ensures (exists p, page :: p in st.procs && page in st.procs[p].pages && st.procs[p].pages[page].0 == s)
            ==> s in st.table && st.segs[s].size.Some?
  {
    assert SegOk(st, s);
    forall f | f in st.files && st.files[f] == s ensures s in st.table {
      assert f in Holders(st.files, s);
    }
    forall p, page | p in st.procs && page in st.procs[p].pages && st.procs[p].pages[page].0 == s
      ensures s in st.table && st.segs[s].size.Some?
    {
      var v := st.procs[p].pages[page];
      assert Covered(st.procs[p]) && CoveredAt(st.procs[p].atts, page, v);
      var k :| 0 <= k < |st.procs[p].atts| && Explains(st.procs[p].atts[k], page, v);
      AttachedPositive(st.procs, p, k);
      assert AttOk(st, st.procs[p].atts[k]);
    }
  }

  // ---- elementary changes ----

  function MaybeFree(st: Shm, s: SegId): Shm
    requires s in st.segs
  {
    var g := st.segs[s];
    if g.removed && g.attached == 0 && g.fds == 0 then
      st.(table := st.table - {s},
          segs := st.segs[s := g.(size := None, closes := g.closes + if g.size.Some? then 1 else 0)])
    else st
  }

  /** p's k-th attachment is forgotten. */
  function Detach(st: Shm, p: Pid, k: nat): Shm
    requires p in st.procs && k < |st.procs[p].atts| && st.procs[p].atts[k].s in st.segs
  {
    var pr := st.procs[p];
    var s := pr.atts[k].s;
    MaybeFree(st.(procs := st.procs[p := pr.(atts := pr.atts[..k] + pr.atts[k + 1..])],
                  segs := st.segs[s := st.segs[s].(attached := st.segs[s].attached - 1)]), s)
  }

  /** A segment that is in use, or not removed, stays; freeing is only for the others. */
  lemma MaybeFreeSegOk(st: Shm, s: SegId)
    requires s in st.segs && s in st.table && s < st.next && st.segs[s].closes == 0 && st.segs[s].opens <= 1
    requires st.segs[s].size.Some? <==> st.segs[s].opens == 1
    requires st.segs[s].attached == Attached(st.procs, s) && st.segs[s].fds == |Holders(st.files, s)|
    ensures SegOk(MaybeFree(st, s), s)
  {
  }

  lemma DetachOk(st: Shm, p: Pid, k: nat)
    requires CountsOk(st) && p in st.procs && k < |st.procs[p].atts|
    ensures st.procs[p].atts[k].s in st.segs
    ensures CountsOk(Detach(st, p, k))
  {
    hide Attached, Count, Holders;
    var pr := st.procs[p];
    var s := pr.atts[k].s;
    assert AttOk(st, pr.atts[k]) && SegOk(st, s);
    AttachedPositive(st.procs, p, k);
    var pr' := pr.(atts := pr.atts[..k] + pr.atts[k + 1..]);
    var st1 := st.(procs := st.procs[p := pr'], segs := st.segs[s := st.segs[s].(attached := st.segs[s].attached - 1)]);
    var st2 := MaybeFree(st1, s);
    forall t | t in st2.segs ensures SegOk(st2, t) {
      AttachedUpdate(st.procs, p, pr', t);
      CountWithout(pr.atts, k, t);
      assert SegOk(st, t);
      if t == s { MaybeFreeSegOk(st1, s); }
    }
    forall q, j | q in st2.procs && 0 <= j < |st2.procs[q].atts| ensures AttOk(st2, st2.procs[q].atts[j]) {
      DetachKeepsAtt(st, p, k, q, j);
    }
  }

  /** The attachments that stay are as good as before: if the segment is freed, none of them is to it. */
  lemma DetachKeepsAtt(st: Shm, p: Pid, k: nat, q: Pid, j: nat)
    requires CountsOk(st) && p in st.procs && k < |st.procs[p].atts| && st.procs[p].atts[k].s in st.segs
    requires var st2 := Detach(st, p, k); q in st2.procs && j < |st2.procs[q].atts|
    ensures var st2 := Detach(st, p, k); AttOk(st2, st2.procs[q].atts[j])
  {
    hide Attached, Count, Holders;
    var pr := st.procs[p];
    var s := pr.atts[k].s;
    var st2 := Detach(st, p, k);
    var atts' := pr.atts[..k] + pr.atts[k + 1..];
    var i := if q == p && j >= k then j + 1 else j;
    assert st2.procs[q].atts[j] == st.procs[q].atts[i];
    assert AttOk(st, st.procs[q].atts[i]) && SegOk(st, s);
    assert st2.segs[s].size == st.segs[s].size || Attached(st2.procs, s) == 0 by {
      AttachedUpdate(st.procs, p, pr.(atts := atts'), s);
      CountWithout(pr.atts, k, s);
    }
    AttachedPositive(st2.procs, q, j);
  }
}
