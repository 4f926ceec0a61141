/**
 kalloc.c, the copy-on-write parts of vm.c and the store-fault branch of trap.c,
 as code over the allocator's fields and the page tables.

 The methods follow the machine of CowMachine action by action.  Each is the path
 of one process that nobody disturbs; CowTheorems covers the interleavings.
 */
module CowCode {
  import opened CowMachine
  import opened CowProofs
  import opened CowTheorems

  ghost predicate Sound(s: Sys, e: Eager) {
    Inv(s, e)
  }

  // the same, kept folded
  ghost predicate Known(s: Sys, e: Eager) { forall x, y :: x == s && y == e ==> Sound(x, y) }

  datatype Snap = Snap(pt: map<Key, Pte>, e: Eager)

  // the parent has all n pages, the child none of them
  ghost predicate CanShare(p: int, c: int, n: int, a: Snap) {
    forall v :: 0 <= v < n ==>
      Key(p, v) in a.pt && Key(p, v) in a.e.mem && Key(c, v) !in a.e.mem && Key(c, v) !in a.e.rx && Key(c, v) !in a.pt
  }

  // The same page with the same permissions, but for W, which copy-on-write stands in for.
  ghost predicate Guarded(old': Pte, new': Pte) {
    && new'.frame == old'.frame && new'.u == old'.u && new'.rx == old'.rx
    && !new'.w && new'.cow == (old'.w || old'.cow)
  }

  // What uvmcopy has made of the entries of a: pages 0 .. j-1 of the parent are guarded, the child
  // has copies of the first i of these entries, and every other entry is as it was.
  ghost predicate Entries(p: int, c: int, i: int, j: int, a: map<Key, Pte>, b: map<Key, Pte>) {
    && (forall k :: k in b <==> k in a || (k.p == c && 0 <= k.v < i))
    && (forall k :: k in a ==> k in b && if k.p == p && 0 <= k.v < j then Guarded(a[k], b[k]) else b[k] == a[k])
    && (forall v :: 0 <= v < i ==> Key(p, v) in b && Key(c, v) in b && b[Key(c, v)] == b[Key(p, v)])
  }

  // What it has made of the bytes: the child would have the parent's.
  ghost predicate Bytes(p: int, c: int, i: int, a: Eager, b: Eager) {
    && (forall k :: k in a.mem ==> k in b.mem && b.mem[k] == a.mem[k])
    && (forall k :: k in b.mem ==> k in a.mem || (k.p == c && 0 <= k.v < i))
    && (forall v :: 0 <= v < i ==> Key(p, v) in a.mem && Key(c, v) in b.mem && b.mem[Key(c, v)] == a.mem[Key(p, v)])
    && (forall k :: k in a.rx ==> k in b.rx && b.rx[k] == a.rx[k])
  }

  ghost predicate SharedUpTo(p: int, c: int, i: int, j: int, a: Snap, b: Snap) {
    Entries(p, c, i, j, a.pt, b.pt) && Bytes(p, c, i, a.e, b.e)
  }

  ghost predicate Sharing(p: int, c: int, i: int, j: int, a: Snap, b: Snap) {
    forall x :: x == b ==> SharedUpTo(p, c, i, j, a, x)
  }

  lemma SharingNext(p: int, c: int, i: int, n: int, a: Snap, b: Snap)
    requires Sharing(p, c, i, i, a, b) && CanShare(p, c, n, a) && 0 <= i < n && c != p
    ensures Key(p, i) in b.pt && Key(c, i) !in b.e.mem && Key(c, i) !in b.pt
  {
    assert SharedUpTo(p, c, i, i, a, b);
  }

  // what SharePage makes of entries and bytes
  ghost predicate OneShared(p: int, c: int, i: int, b: Snap, b': Snap, mapped: bool) {
    && Key(p, i) in b.pt && Key(p, i) in b.e.mem && Key(p, i) in b.e.rx && Key(p, i) in b'.pt
    && Guarded(b.pt[Key(p, i)], b'.pt[Key(p, i)])
    && b'.pt == (if mapped then b.pt[Key(p, i) := b'.pt[Key(p, i)]][Key(c, i) := b'.pt[Key(p, i)]]
                 else b.pt[Key(p, i) := b'.pt[Key(p, i)]])
    && b'.e == if mapped then ForkedEager(b.e, Key(p, i), c) else b.e
  }

  lemma SharingStep(p: int, c: int, i: int, n: int, a: Snap, b: Snap, b': Snap, mapped: bool)
    requires Sharing(p, c, i, i, a, b) && CanShare(p, c, n, a) && 0 <= i < n && c != p
    requires OneShared(p, c, i, b, b', mapped)
    ensures Sharing(p, c, if mapped then i + 1 else i, i + 1, a, b')
  {
    assert SharedUpTo(p, c, i, i, a, b);
    SharedEntries(p, c, i, n, a, b, b', mapped);
    SharedBytes(p, c, i, n, a, b, b', mapped);
    assert SharedUpTo(p, c, if mapped then i + 1 else i, i + 1, a, b');
  }

  lemma SharedEntries(p: int, c: int, i: int, n: int, a: Snap, b: Snap, b': Snap, mapped: bool)
    requires Entries(p, c, i, i, a.pt, b.pt) && CanShare(p, c, n, a) && 0 <= i < n && c != p
    requires OneShared(p, c, i, b, b', mapped)
    ensures Entries(p, c, if mapped then i + 1 else i, i + 1, a.pt, b'.pt)
  {
    assert Key(c, i) !in a.pt && Key(p, i) in a.pt && b.pt[Key(p, i)] == a.pt[Key(p, i)];
  }

  lemma SharedBytes(p: int, c: int, i: int, n: int, a: Snap, b: Snap, b': Snap, mapped: bool)
    requires Bytes(p, c, i, a.e, b.e) && CanShare(p, c, n, a) && 0 <= i < n && c != p
    requires OneShared(p, c, i, b, b', mapped)
    ensures Bytes(p, c, if mapped then i + 1 else i, a.e, b'.e)
  {
    assert Key(c, i) !in a.e.mem && Key(p, i) in a.e.mem;
  }

  // 4 KB pages in a 2 MB page
  const HUGE: int := 512

  ghost predicate InHuge(huge: seq<int>, f: int) {
    exists i :: 0 <= i < |huge| && huge[i] <= f < huge[i] + HUGE
  }

  // What freerange has made of pages lo .. p-1: each is on the 4 KB list or inside
  // one aligned 2 MB chunk, never both, never twice, and has count 0.
  ghost predicate Carved(lo: int, p: int, free: seq<int>, huge: seq<int>, count: map<int, int>) {
    && (forall f :: lo <= f < p ==> f in count && count[f] == 0 && (f in free <==> !InHuge(huge, f)))
    && (forall f :: f in count ==> lo <= f < p)
    && (forall f :: f in free ==> lo <= f < p)
    && (forall i, j :: 0 <= i < j < |free| ==> free[i] > free[j])
    && (forall i :: 0 <= i < |huge| ==> huge[i] % HUGE == 0 && lo <= huge[i] && huge[i] + HUGE <= p)
    && (forall i, j :: 0 <= i < j < |huge| ==> huge[i] >= huge[j] + HUGE)
  }

  predicate Aligned(q: int) { q % HUGE == 0 }

  // every aligned chunk of lo .. hi-1 that starts before p was taken as a whole
  ghost predicate AllChunks(lo: int, hi: int, p: int, huge: seq<int>) {
    forall q :: lo <= q < p && Aligned(q) && q + HUGE <= hi ==> q in huge
  }

  lemma NextChunk(p: int, q: int)
    requires Aligned(p) && Aligned(q) && p < q
    ensures q >= p + HUGE
  {
  }

  lemma ChunksTaken(lo: int, hi: int, p: int, huge: seq<int>)
    requires AllChunks(lo, hi, p, huge) && Aligned(p)
    ensures AllChunks(lo, hi, p + HUGE, [p] + huge)
  {
    var huge' := [p] + huge;
    assert forall q :: q in huge' <==> q == p || q in huge;
    forall q | lo <= q < p + HUGE && Aligned(q) && q + HUGE <= hi ensures q in huge' {
      if q > p { NextChunk(p, q); }
    }
  }

  lemma CarveSmall(lo: int, p: int, free: seq<int>, huge: seq<int>, count: map<int, int>)
    requires Carved(lo, p, free, huge, count) && lo <= p
    ensures Carved(lo, p + 1, [p] + free, huge, count[p := 0])
  {
    var free' := [p] + free;
    assert forall f :: f in free' <==> f == p || f in free;
    assert !InHuge(huge, p);
    assert forall j :: 0 <= j < |free| ==> free[j] in free;
  }

  lemma CarveHuge(lo: int, p: int, free: seq<int>, huge: seq<int>, count: map<int, int>, count': map<int, int>)
    requires Carved(lo, p, free, huge, count) && lo <= p && p % HUGE == 0
    requires forall f :: f in count' <==> f in count || p <= f < p + HUGE
    requires forall f :: f in count' ==> count'[f] == if f in count then count[f] else 0
    ensures Carved(lo, p + HUGE, free, [p] + huge, count')
  {
    var huge' := [p] + huge;
    forall f | lo <= f < p + HUGE ensures InHuge(huge', f) <==> InHuge(huge, f) || p <= f {
      if InHuge(huge, f) {
        var i :| 0 <= i < |huge| && huge[i] <= f < huge[i] + HUGE;
        assert huge'[i + 1] == huge[i];
      }
      if p <= f { assert huge'[0] == p; }
    }
    assert forall f :: p <= f < p + HUGE ==> f !in free;
    assert forall i, j :: 0 <= i < j < |huge'| ==> huge'[i] >= huge'[j] + HUGE;
  }

  // freerange over pages lo .. hi-1
  method Freerange(lo: int, hi: int) returns (free: seq<int>, huge: seq<int>, count: map<int, int>)
    requires lo <= hi
    ensures Carved(lo, hi, free, huge, count) && AllChunks(lo, hi, hi, huge)
  {
    free, huge, count := [], [], map[];
    var p := lo;
    while p + 1 <= hi
      invariant lo <= p <= hi && Carved(lo, p, free, huge, count) && AllChunks(lo, hi, p, huge)
    {
      if p % HUGE == 0 && p + HUGE <= hi {
        ghost var before := count;
        count := ClearCounts(count, p, HUGE);
        CarveHuge(lo, p, free, huge, before, count);
        assert Aligned(p);
        ChunksTaken(lo, hi, p, huge);
        huge := [p] + huge;
        p := p + HUGE;
      } else {
        CarveSmall(lo, p, free, huge, count);
        assert !(Aligned(p) && p + HUGE <= hi);
        count := count[p := 1];
        count := count[p := count[p] - 1];
        free := [p] + free;
        p := p + 1;
      }
    }
  }

  // set n counts to 1, then take them back to 0, as freerange and kfree_huge do
  method ClearCounts(count: map<int, int>, p: int, n: int) returns (count': map<int, int>)
    requires 0 <= n && forall f :: p <= f < p + n ==> f !in count
    ensures forall f :: f in count' <==> f in count || p <= f < p + n
    ensures forall f :: f in count' ==> count'[f] == if f in count then count[f] else 0
  {
    count' := count;
    for i := 0 to n
      invariant forall f :: f in count' <==> f in count || p <= f < p + i
      invariant forall f :: f in count' ==> count'[f] == if f in count then count[f] else 1
    {
      count' := count'[p + i := 1];
    }
    for i := 0 to n
      invariant forall f :: f in count' <==> f in count || p <= f < p + n
      invariant forall f :: f in count' ==> count'[f] == if f in count then count[f] else if f < p + i then 0 else 1
    {
      count' := count'[p + i := count'[p + i] - 1];
    }
  }

  class Kernel {
    // struct kmem and the frames
    var count: map<int, int>
    var free: seq<int>
    var mem: map<int, Page>

    // user page tables
    var pt: map<Key, Pte>

    ghost var m: Sys
    ghost var e: Eager

    ghost predicate Traced()
      reads this`m, this`e
    {
      forall s, d :: s == m && d == e ==> Sound(s, d)
    }

    ghost predicate Valid()
      reads this
    {
      Traced() && count == m.count && free == m.free && mem == m.mem && pt == m.pt && m.limbo == {}
    }

    // kinit's 4 KB list: all frames free, nothing mapped
    constructor (frames: seq<int>)
      requires forall i, j :: 0 <= i < j < |frames| ==> frames[i] != frames[j]
      ensures Valid() && free == frames && pt == map[] && m.act == map[] && forall f :: f in count ==> count[f] == 0
    {
      free, pt := frames, map[];
      count := map f | f in frames :: 0;
      mem := map f | f in frames :: Fill(1);
      m := Sys(map f | f in frames :: Fill(1), map f | f in frames :: 0, frames, {}, map[], multiset{}, map[]);
      e := Eager(map[], {}, map[]);
      new;
      InitialInv(m, e);
      assert Sound(m, e);
    }

    // Let both machines make action a.
    ghost method Take(a: Action)
      requires Traced() && Enabled(m, e, a)
      modifies this`m, this`e
      ensures Traced() && m == Apply(old(m), old(e), a) && e == EApply(old(m), old(e), a)
    {
      assert Sound(m, e);
      ApplyKeeps(m, e, a);
      m, e := Apply(m, e, a), EApply(m, e, a);
    }

    // kalloc; ok is false when there is no free frame.  Action a says who becomes the owner.
    method Kalloc(ghost a: Action) returns (ok: bool, r: int)
      requires Valid() && (free != [] ==> Enabled(m, e, a) && (a == KAlloc || a.FaultAlloc?))
      modifies this`count, this`free, this`mem, this`m, this`e
      ensures Valid() && ok == (old(free) != [])
      ensures ok ==> r == old(free)[0] && m == Apply(old(m), old(e), a) && e == old(e)
      ensures ok ==> free == old(free)[1..] && count == old(count)[r := 1] && mem == old(mem)[r := Fill(5)]
      ensures !ok ==> m == old(m) && e == old(e)
    {
      if free == [] {
        ok, r := false, 0;
      } else {
        ok, r := true, free[0];
        free := free[1..];
        count := count[r := 1];
        mem := mem[r := Fill(5)];
        Take(a);
      }
    }

    // kfree: drop one reference; the last one returns the frame to the free list.
    method Kfree(f: int, ghost a: Action, ghost t: Sys)
      requires Traced() && f in count && m.limbo == {}
      requires count == m.count && free == m.free && mem == m.mem
      requires t == m.(pt := t.pt, act := t.act, kern := t.kern)
      requires Enabled(m, e, a) && Apply(m, e, a) == Drop(t, f)
      modifies this`count, this`free, this`mem, this`m, this`e
      ensures Traced() && count == m.count && free == m.free && mem == m.mem && m.limbo == {}
      ensures m.pt == t.pt && m.act == t.act && m.kern == t.kern && e == EApply(old(m), old(e), a)
      ensures count == old(count)[f := old(count)[f] - 1]
      ensures old(count)[f] != 1 ==> free == old(free) && mem == old(mem)
      ensures old(count)[f] == 1 ==> free == [f] + old(free) && mem == old(mem)[f := Fill(1)]
    {
      count := count[f := count[f] - 1];
      Take(a);
      if count[f] != 0 {
        return;
      }
      mem := mem[f := Fill(1)];
      free := [f] + free;
      Take(Push(f));
    }

    // one round of uvmunmap's loop
    method UnmapPage(k: Key)
      requires Valid() && k.p !in m.act && k in pt
      modifies this
      ensures Valid() && pt == old(pt) - {k} && m.act == old(m.act) && m.kern == old(m.kern)
      ensures e == Eager(old(e.mem) - {k}, old(e.wr) - {k}, old(e.rx) - {k}) && count.Keys == old(count.Keys)
    {
      InTable(k);
      ghost var t := m.(pt := m.pt - {k});
      Kfree(pt[k].frame, Unmap(k), t);
      pt := pt - {k};
    }

    lemma FirstFree()
      requires Valid()
      ensures free != [] ==> free[0] in count && count[free[0]] == 0
    {
      assert Sound(m, e);
      assert free != [] ==> free[0] in free;
    }

    lemma InTable(k: Key)
      requires Valid() && k in pt
      ensures Mapped(m, k) && pt[k].frame in count && k in e.mem && k in e.rx
    {
      assert Sound(m, e);
    }

    // Remove pages lo .. hi-1 of process p, freeing what only they used.
    method Uvmunmap(p: int, lo: int, hi: int)
      requires Valid() && p !in m.act && lo <= hi
      modifies this
      ensures Valid() && m.act == old(m.act) && m.kern == old(m.kern) && count.Keys == old(count.Keys)
      ensures forall k :: k in pt <==> k in old(pt) && !(k.p == p && lo <= k.v < hi)
      ensures forall k :: k in pt ==> pt[k] == old(pt)[k]
      ensures forall k :: k in pt && k in old(e.mem) ==> k in e.mem && e.mem[k] == old(e.mem)[k]
    {
      var a := lo;
      while a < hi
        invariant lo <= a <= hi && Valid() && m.act == old(m.act) && m.kern == old(m.kern)
          && count.Keys == old(count.Keys)
        invariant forall k :: k in pt <==> k in old(pt) && !(k.p == p && lo <= k.v < a)
        invariant forall k :: k in pt ==> pt[k] == old(pt)[k]
        invariant forall k :: k in pt && k in old(e.mem) ==> k in e.mem && e.mem[k] == old(e.mem)[k]
      {
        if Key(p, a) in pt {
          UnmapPage(Key(p, a));
        }
        a := a + 1;
      }
    }

    // One round of uvmcopy's loop: share page v of p with its child c.  mapped says
    // whether mappages found the page-table pages it needs.
    method SharePage(p: int, c: int, v: int, mapped: bool)
      requires Valid() && p in m.act && m.act[p] == Forking(c) && c != p
      requires Key(p, v) in pt && Key(c, v) !in e.mem
      modifies this
      ensures Valid() && m.act == old(m.act) && m.kern == old(m.kern) && count.Keys == old(count.Keys)
      ensures OneShared(p, c, v, Snap(old(pt), old(e)), Snap(pt, e), mapped)
      ensures var f := old(pt)[Key(p, v)].frame;
        f in old(count) && count == if mapped then old(count)[f := old(count)[f] + 1] else old(count)
    {
      var k := Key(p, v);
      InTable(k);
      var f := pt[k].frame;
      IncPage(p, c, v);
      assert m.act[p := Forking(c)] == old(m.act);
      if mapped {
        Take(ForkMap(p));
        pt := pt[Key(c, v) := pt[k]];
      } else {
        ghost var t := m.(act := m.act[p := Forking(c)]);
        Shareds(p);
        Kfree(f, ForkFail(p), t);
      }
    }

    // the parent's entry loses W, inc_ref
    method IncPage(p: int, c: int, v: int)
      requires Valid() && p in m.act && m.act[p] == Forking(c) && c != p
      requires Key(p, v) in pt && Key(c, v) !in e.mem && Mapped(m, Key(p, v))
      modifies this`pt, this`count, this`m, this`e
      ensures Valid() && m.act == old(m.act)[p := ForkRef(c, v, old(pt)[Key(p, v)].frame)] && m.kern == old(m.kern)
      ensures Key(p, v) in pt && Guarded(old(pt)[Key(p, v)], pt[Key(p, v)]) && pt == old(pt)[Key(p, v) := pt[Key(p, v)]]
      ensures e == old(e) && count == old(count)[pt[Key(p, v)].frame := old(count)[pt[Key(p, v)].frame] + 1]
    {
      var k := Key(p, v);
      var f := pt[k].frame;
      if pt[k].w {
        pt := pt[k := pt[k].(w := false, cow := true)];
      }
      count := count[f := count[f] + 1];
      Take(ForkInc(p, v));
    }

    // A reference just taken for a child is not the last one.
    lemma Shareds(p: int)
      requires Traced() && p in m.act && m.act[p].ForkRef?
      ensures m.act[p].f in m.count && m.count[m.act[p].f] >= 2
    {
      assert Sound(m, e);
      assert ActOk(m, e, p);
      RefAndHold(m, Key(p, m.act[p].v), p);
    }

    // The loop of uvmcopy; stops at page failAt if mappages fails there.
    method ShareLoop(p: int, c: int, n: int, failAt: int) returns (i: int)
      requires Valid() && p in m.act && m.act[p] == Forking(c) && c != p && 0 <= n
      requires CanShare(p, c, n, Snap(pt, e))
      modifies this
      ensures Valid() && m.act == old(m.act) && m.kern == old(m.kern) && count.Keys == old(count.Keys)
      ensures i == (if 0 <= failAt < n then failAt else n)
      ensures Sharing(p, c, i, if i < n then i + 1 else i, Snap(old(pt), old(e)), Snap(pt, e))
    {
      i := 0;
      ghost var a := Snap(pt, e);
      assert SharedUpTo(p, c, 0, 0, a, a);
      while i < n
        invariant 0 <= i <= n && (0 <= failAt < n ==> i <= failAt)
        invariant Valid() && m.act == old(m.act) && m.kern == old(m.kern) && count.Keys == old(count.Keys)
        invariant Sharing(p, c, i, i, a, Snap(pt, e))
      {
        ghost var b := Snap(pt, e);
        SharingNext(p, c, i, n, a, b);
        SharePage(p, c, i, i != failAt);
        SharingStep(p, c, i, n, a, b, Snap(pt, e), i != failAt);
        if i == failAt {
          return;
        }
        i := i + 1;
      }
    }

    // uvmcopy: give the child the parent's pages, shared.  A failure leaves every
    // count as it was and the child without pages.
    method Uvmcopy(p: int, c: int, n: int, failAt: int) returns (ok: bool)
      requires Valid() && p !in m.act && c !in m.act && c != p && 0 <= n
      requires CanShare(p, c, n, Snap(pt, e))
      modifies this
      ensures Valid() && m.act == old(m.act) && m.kern == old(m.kern)
      ensures ok == !(0 <= failAt < n)
      ensures ok ==> Entries(p, c, n, n, old(pt), pt) && Bytes(p, c, n, old(e), e)
      ensures !ok ==> count == old(count) && Entries(p, c, 0, failAt + 1, old(pt), pt)
    {
      ghost var m0, e0 := m, e;
      assert Sound(m0, e0);
      Take(ForkStart(p, c));
      var i := ShareLoop(p, c, n, failAt);
      assert SharedUpTo(p, c, i, if i < n then i + 1 else i, Snap(old(pt), old(e)), Snap(pt, e));
      assert m.act - {p} == m0.act;
      Take(ForkEnd(p));
      ok := i == n;
      if !ok {
        Undo(p, c, i, m0, e0);
      }
    }

    method Undo(p: int, c: int, i: int, ghost m0: Sys, ghost e0: Eager)
      requires Valid() && c !in m.act && 0 <= i && c != p && Entries(p, c, i, i + 1, m0.pt, pt)
      requires Known(m0, e0) && m0.act == m.act && m0.kern == m.kern && m0.count.Keys == count.Keys
      requires forall v :: 0 <= v < i ==> Key(c, v) !in m0.pt
      modifies this
      ensures Valid() && m.act == old(m.act) && m.kern == old(m.kern)
      ensures count == m0.count && Entries(p, c, 0, i + 1, m0.pt, pt)
    {
      Uvmunmap(c, 0, i);
      assert pt.Keys == m0.pt.Keys;
      Restored(m0, e0);
    }

    // With the same owners as before, all counts are as before.
    lemma Restored(m0: Sys, e0: Eager)
      requires Valid() && Known(m0, e0) && m0.act == m.act && m0.kern == m.kern && m0.count.Keys == count.Keys
      requires m0.pt.Keys == pt.Keys && forall k :: k in pt ==> pt[k].frame == m0.pt[k].frame
      ensures count == m0.count
    {
      assert Sound(m, e) && Sound(m0, e0);
      CountsDetermined(m0, e0, m, e);
    }

    // The store-fault branch of usertrap, for a store to page v of process p.
    method StoreFault(p: int, v: int) returns (killed: bool)
      requires Valid() && p !in m.act
      requires Key(p, v) in pt && pt[Key(p, v)].u ==> !pt[Key(p, v)].w
      modifies this
      ensures Valid() && m.act == old(m.act) && m.kern == old(m.kern) && e == old(e)
      ensures killed ==> pt == old(pt) && count == old(count)
      ensures Key(p, v) !in old(pt) || !old(pt)[Key(p, v)].u || !old(pt)[Key(p, v)].cow ==> killed
      ensures Key(p, v) in old(pt) && old(pt)[Key(p, v)].u && old(pt)[Key(p, v)].cow ==>
        old(pt)[Key(p, v)].frame in old(count) && killed ==
          (old(count)[old(pt)[Key(p, v)].frame] > 1 && old(free) == [])
      ensures !killed ==>
        var k, f := Key(p, v), old(pt)[Key(p, v)].frame;
        if old(count)[f] > 1 then Moved(k, f, old(free), old(pt), old(count), old(mem), pt, count, mem)
        else pt == old(pt)[k := old(pt)[k].(w := true, cow := false)] && count == old(count) && mem == old(mem)
    {
      var k := Key(p, v);
      killed := false;
      if k !in pt || !pt[k].u {
        killed := true;
      } else if pt[k].cow {
        InTable(k);
        ghost var act := m.act;
        Take(Fault(p, v));
        assert m.act - {p} == act;
        if count[pt[k].frame] > 1 {
          killed := CopyFault(p, k);
        } else {
          pt := pt[k := pt[k].(cow := false, w := true)];
          Take(SoloDone(p));
        }
      } else {
        killed := true;
      }
    }

    // Page k is in the first free frame, writable and with the bytes of frame f, which has one
    // reference less.
    ghost predicate Moved(k: Key, f: int, free0: seq<int>, pt0: map<Key, Pte>, count0: map<int, int>,
        mem0: map<int, Page>, pt1: map<Key, Pte>, count1: map<int, int>, mem1: map<int, Page>) {
      && free0 != [] && k in pt0 && f in count0 && f in mem0
      && pt1 == pt0[k := Pte(free0[0], true, true, false, pt0[k].rx)]
      && count1 == count0[free0[0] := 1][f := count0[f] - 1] && mem1 == mem0[free0[0] := mem0[f]]
    }

    // more than one reference: move the process to a page of its own
    method CopyFault(p: int, k: Key) returns (killed: bool)
      requires Valid() && p in m.act && m.act[p] == FaultCopy(k.v) && k.p == p && k in pt && pt[k].frame in count
        && pt[k].u && count[pt[k].frame] > 1
      modifies this
      ensures Valid() && m.act == old(m.act) - {p} && m.kern == old(m.kern) && e == old(e)
      ensures killed <==> old(free) == []
      ensures killed ==> pt == old(pt) && count == old(count)
      ensures !killed ==>
        k in old(pt) && Moved(k, old(pt)[k].frame, old(free), old(pt), old(count), old(mem), pt, count, mem)
    {
      InTable(k);
      FirstFree();
      var ok, page := Kalloc(FaultAlloc(p));
      killed := !ok;
      if !ok {
        Take(FaultFail(p));
      } else {
        InTable(k);
        mem := mem[page := mem[pt[k].frame]];
        Take(FaultMove(p));
        RemapFault(p, k, page);
      }
    }

    // uvmunmap of the shared page, then mappages of the copy
    method RemapFault(p: int, k: Key, page: int)
      requires Valid() && p in m.act && m.act[p] == FaultCopied(k.v, page) && k.p == p && k in pt
      modifies this
      ensures Valid() && m.act == old(m.act) - {p} && m.kern == old(m.kern) && e == old(e)
      ensures pt == old(pt)[k := Pte(page, true, true, false, old(pt)[k].rx)]
      ensures var f := old(pt)[k].frame;
        f in old(count) && count == old(count)[f := old(count)[f] - 1] && (old(count)[f] != 1 ==> mem == old(mem))
    {
      InTable(k);
      var pte := pt[k];
      ghost var act := m.act[p := FaultRemap(k.v, page, pte.rx)];
      Kfree(pte.frame, FaultUnmap(p), m.(pt := m.pt - {k}, act := act));
      pt := pt - {k};
      assert act - {p} == old(m.act) - {p};
      pt := pt[k := Pte(page, true, true, false, pte.rx)];
      Take(FaultMap(p));
      assert pt == old(pt)[k := Pte(page, true, true, false, pte.rx)];
    }
  }
}
