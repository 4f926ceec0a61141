/**
 Every action of the copy-on-write machine keeps its invariant.
 */
module CowProofs {
  import opened CowMachine

  // ---------------------------------------------------------------------
  // Counting references.

  function One(b: bool): (n: int) { if b then 1 else 0 }

  lemma RefsPut(pt: map<Key, Pte>, k: Key, e: Pte, f: int)
    ensures NRefs(pt[k := e], f) == NRefs(pt, f) - One(k in pt && pt[k].frame == f) + One(e.frame == f)
  {
    var r, r' := Refs(pt, f), Refs(pt[k := e], f);
    if e.frame == f { assert r' == r + {k}; } else { assert r' == r - {k}; }
  }

  lemma RefsDel(pt: map<Key, Pte>, k: Key, f: int)
    ensures NRefs(pt - {k}, f) == NRefs(pt, f) - One(k in pt && pt[k].frame == f)
  {
    assert Refs(pt - {k}, f) == Refs(pt, f) - {k};
  }

  lemma HoldPut(act: map<int, Act>, p: int, a: Act, f: int)
    ensures NHold(act[p := a], f) == NHold(act, f) - One(p in act && Holds(act[p], f)) + One(Holds(a, f))
  {
    var r, r' := Holders(act, f), Holders(act[p := a], f);
    if Holds(a, f) { assert r' == r + {p}; } else { assert r' == r - {p}; }
  }

  lemma HoldDel(act: map<int, Act>, p: int, f: int)
    ensures NHold(act - {p}, f) == NHold(act, f) - One(p in act && Holds(act[p], f))
  {
    assert Holders(act - {p}, f) == Holders(act, f) - {p};
  }

  // ---------------------------------------------------------------------
  // Who can share a frame.

  lemma RefCount(s: Sys, k: Key)
    requires Counted(s) && Closed(s) && k in s.pt
    ensures var f := s.pt[k].frame; f in s.count && s.count[f] >= 1 + NHold(s.act, f) + s.kern[f]
  {
    RefOne(s.pt, k);
  }

  lemma Subset<T>(a: set<T>, b: set<T>)
    requires a <= b
    ensures |a| <= |b|
  {
    assert b == a + (b - a);
  }

  lemma RefOne(pt: map<Key, Pte>, k: Key)
    requires k in pt
    ensures NRefs(pt, pt[k].frame) >= 1
  {
    assert {k} <= Refs(pt, pt[k].frame);
    Subset({k}, Refs(pt, pt[k].frame));
  }

  lemma HoldOne(act: map<int, Act>, p: int, f: int)
    requires p in act && Holds(act[p], f)
    ensures NHold(act, f) >= 1
  {
    assert {p} <= Holders(act, f);
    Subset({p}, Holders(act, f));
  }

  lemma TwoRefs(s: Sys, k: Key, k': Key)
    requires Counted(s) && Closed(s) && k in s.pt && k' in s.pt && k != k' && s.pt[k].frame == s.pt[k'].frame
    ensures s.pt[k].frame in s.count && s.count[s.pt[k].frame] >= 2
  {
    var f := s.pt[k].frame;
    assert {k, k'} <= Refs(s.pt, f);
    Subset({k, k'}, Refs(s.pt, f));
  }

  lemma HoldCount(s: Sys, p: int, f: int)
    requires Counted(s) && Closed(s) && p in s.act && Holds(s.act[p], f)
    ensures f in s.count && s.count[f] >= 1 + NRefs(s.pt, f) + s.kern[f]
  {
    HoldOne(s.act, p, f);
  }

  lemma TwoHolders(s: Sys, p: int, q: int, f: int)
    requires Counted(s) && Closed(s) && p in s.act && q in s.act && p != q && Holds(s.act[p], f) && Holds(s.act[q], f)
    ensures f in s.count && s.count[f] >= 2
  {
    assert {p, q} <= Holders(s.act, f);
    Subset({p, q}, Holders(s.act, f));
  }

  // a frame with a user entry and a holder
  lemma RefAndHold(s: Sys, k: Key, p: int)
    requires Counted(s) && Closed(s) && k in s.pt && p in s.act && Holds(s.act[p], s.pt[k].frame)
    ensures s.pt[k].frame in s.count && s.count[s.pt[k].frame] >= 2
  {
    HoldCount(s, p, s.pt[k].frame);
    RefOne(s.pt, k);
  }

  // ---------------------------------------------------------------------
  // Actions.

  lemma StoreFrame(s: Sys, k: Key, k': Key)
    requires Book(s) && k in s.pt && s.pt[k].w && k' in s.pt && k' != k
    ensures s.pt[k'].frame != s.pt[k].frame
  {
    if s.pt[k'].frame == s.pt[k].frame { TwoRefs(s, k, k'); }
  }

  lemma StoreView(s: Sys, e: Eager, k: Key, pg: Page)
    requires Book(s) && ViewOk(s, e) && k in s.pt && s.pt[k].w
    ensures ViewOk(s.(mem := s.mem[s.pt[k].frame := pg]), e.(mem := e.mem[k := pg]))
  {
    assert forall k' :: k' in s.pt && k' != k ==> s.pt[k'].frame != s.pt[k].frame by {
      forall k' | k' in s.pt && k' != k ensures s.pt[k'].frame != s.pt[k].frame { StoreFrame(s, k, k'); }
    }
    AloneView(s, e, k, pg);
  }

  lemma AloneView(s: Sys, e: Eager, k: Key, pg: Page)
    requires ViewOk(s, e) && k in s.pt && forall k' :: k' in s.pt && k' != k ==> s.pt[k'].frame != s.pt[k].frame
    ensures ViewOk(s.(mem := s.mem[s.pt[k].frame := pg]), e.(mem := e.mem[k := pg]))
  {
  }

  lemma StoreActs(s: Sys, e: Eager, k: Key, pg: Page)
    requires Book(s) && ActsOk(s, e) && k in s.pt && s.pt[k].w && k.p !in s.act
    ensures ActsOk(s.(mem := s.mem[s.pt[k].frame := pg]), e.(mem := e.mem[k := pg]))
  {
    var s', e' := s.(mem := s.mem[s.pt[k].frame := pg]), e.(mem := e.mem[k := pg]);
    forall p | p in s.act ensures ActOk(s', e', p) {
      assert ActOk(s, e, p);
      if Holds(s.act[p], s.pt[k].frame) { RefAndHold(s, k, p); }
    }
  }

  lemma StoreKeeps(s: Sys, e: Eager, k: Key, off: int, val: int)
    requires Inv(s, e) && Enabled(s, e, Store(k, off, val))
    ensures Inv(Apply(s, e, Store(k, off, val)), EApply(s, e, Store(k, off, val)))
  {
    StoreView(s, e, k, Poke(e.mem[k], off, val));
    StoreActs(s, e, k, Poke(e.mem[k], off, val));
  }

  // ---------------------------------------------------------------------
  // The books under allocation, release and hand-over.

  // kalloc gives the head of the free list to one new owner.
  lemma AllocBook(s: Sys, s': Sys)
    requires Book(s) && s.free != []
    requires s' == Alloc(s).(act := s'.act, kern := s'.kern)
    requires forall f :: f in s.count ==> Owners(s', f) == Owners(s, f) + One(f == s.free[0])
    requires Closed(s')
    ensures Book(s') && s.free[0] in s.count && s.count[s.free[0]] == 0
  {
    var f0 := s.free[0];
    assert f0 in s.free;
    assert f0 in s.count && s.count[f0] == 0;
    assert forall f :: f in s'.free <==> f in s.free && f != f0;
    assert Counted(s');
    assert FreeOk(s');
  }

  // kfree takes one owner away.
  lemma DropBook(s: Sys, t: Sys, f: int)
    requires Book(s) && f in s.count
    requires t == s.(act := t.act, kern := t.kern, pt := t.pt)
    requires forall g :: g in s.count ==> Owners(t, g) == Owners(s, g) - One(g == f)
    requires Closed(t) && (forall k :: k in t.pt ==> k in s.pt && t.pt[k] == s.pt[k])
    ensures Book(Drop(t, f)) && s.count[f] >= 1
  {
    assert s.count[f] >= 1 by { assert Owners(t, f) >= 0 && s.count[f] == Owners(s, f); }
    DropCounted(s, t, f);
    DropFree(s, t, f);
    DropExclusive(s, t, f);
  }

  lemma DropCounted(s: Sys, t: Sys, f: int)
    requires Counted(s) && Closed(t) && f in s.count && t == s.(act := t.act, kern := t.kern, pt := t.pt)
    requires forall g :: g in s.count ==> Owners(t, g) == Owners(s, g) - One(g == f)
    ensures Counted(Drop(t, f)) && Closed(Drop(t, f))
  {
    forall g | g in s.count
      ensures Drop(t, f).count[g] == Owners(Drop(t, f), g)
    {
      assert Owners(Drop(t, f), g) == Owners(t, g);
    }
  }

  lemma DropFree(s: Sys, t: Sys, f: int)
    requires FreeOk(s) && f in s.count && s.count[f] >= 1 && t == s.(act := t.act, kern := t.kern, pt := t.pt)
    ensures FreeOk(Drop(t, f))
  {
    assert f !in s.free && f !in s.limbo;
  }

  lemma DropExclusive(s: Sys, t: Sys, f: int)
    requires Book(s) && f in s.count && t == s.(act := t.act, kern := t.kern, pt := t.pt)
    requires Owners(t, f) == Owners(s, f) - 1
    requires Closed(t) && (forall k :: k in t.pt ==> k in s.pt && t.pt[k] == s.pt[k])
    ensures Exclusive(Drop(t, f))
  {
    var s' := Drop(t, f);
    forall k | k in s'.pt && s'.pt[k].w
      ensures !s'.pt[k].cow && s'.pt[k].frame in s'.count && s'.count[s'.pt[k].frame] == 1
    {
      if s'.pt[k].frame == f { DropShared(s, t, k); }
    }
  }

  // A frame that keeps a user entry after losing an owner had two.
  lemma DropShared(s: Sys, t: Sys, k: Key)
    requires Book(s) && k in t.pt && k in s.pt && t.pt[k] == s.pt[k] && s.pt[k].frame in s.count
    requires Owners(t, s.pt[k].frame) == Owners(s, s.pt[k].frame) - 1
    ensures s.count[s.pt[k].frame] >= 2
  {
    RefOne(t.pt, k);
  }

  // A reference changes hands, or an entry its flags; counts stay.
  lemma HandOver(s: Sys, s': Sys)
    requires Book(s) && s' == s.(act := s'.act, kern := s'.kern, pt := s'.pt, mem := s'.mem)
    requires forall f :: f in s.count ==> Owners(s', f) == Owners(s, f)
    requires Closed(s') && Exclusive(s')
    ensures Book(s')
  {
  }

  // ---------------------------------------------------------------------
  // The store-fault handler.

  // an act that holds no frame
  predicate Empty(a: Act) { a.FaultCopy? || a.FaultSolo? || a.Forking? }

  // Only the act of process p changes, and it holds no frame before or after.
  lemma ActBook(s: Sys, act: map<int, Act>)
    requires Book(s)
    requires forall p, f :: p in act && Holds(act[p], f) ==> p in s.act && Holds(s.act[p], f)
    requires forall f :: NHold(act, f) == NHold(s.act, f)
    ensures Book(s.(act := act))
  {
    HandOver(s, s.(act := act));
  }

  lemma ActView(s: Sys, e: Eager, act: map<int, Act>)
    requires ViewOk(s, e)
    requires forall p :: p in s.act && s.act[p].FaultRemap? ==> p in act && act[p] == s.act[p]
    ensures ViewOk(s.(act := act), e)
  {
  }

  lemma ActsPut(s: Sys, e: Eager, p: int, a: Act)
    requires ActsOk(s, e) && ActOk(s.(act := s.act[p := a]), e, p)
    ensures ActsOk(s.(act := s.act[p := a]), e)
  {
    var s' := s.(act := s.act[p := a]);
    forall q | q in s'.act ensures ActOk(s', e, q) { if q != p { assert ActOk(s, e, q); } }
  }

  lemma ActsDel(s: Sys, e: Eager, p: int)
    requires ActsOk(s, e)
    ensures ActsOk(Done(s, p), e)
  {
    var s' := Done(s, p);
    forall q | q in s'.act ensures ActOk(s', e, q) { assert ActOk(s, e, q); }
  }

  lemma NoHoldPut(s: Sys, e: Eager, p: int, a: Act)
    requires Inv(s, e) && (p in s.act ==> Empty(s.act[p])) && Empty(a)
    requires ActOk(s.(act := s.act[p := a]), e, p)
    ensures Inv(s.(act := s.act[p := a]), e)
  {
    forall f ensures NHold(s.act[p := a], f) == NHold(s.act, f) { HoldPut(s.act, p, a, f); }
    ActBook(s, s.act[p := a]);
    ActView(s, e, s.act[p := a]);
    ActsPut(s, e, p, a);
  }

  lemma NoHoldDel(s: Sys, e: Eager, p: int)
    requires Inv(s, e) && p in s.act && Empty(s.act[p])
    ensures Inv(Done(s, p), e)
  {
    forall f ensures NHold(s.act - {p}, f) == NHold(s.act, f) { HoldDel(s.act, p, f); }
    ActBook(s, s.act - {p});
    ActView(s, e, s.act - {p});
    ActsDel(s, e, p);
  }

  lemma FaultKeeps(s: Sys, e: Eager, p: int, v: int)
    requires Inv(s, e) && Enabled(s, e, Fault(p, v))
    ensures Inv(Apply(s, e, Fault(p, v)), e)
  {
    RefCount(s, Key(p, v));
    NoHoldPut(s, e, p, if s.count[s.pt[Key(p, v)].frame] > 1 then FaultCopy(v) else FaultSolo(v));
  }

  lemma SoloBook(s: Sys, k: Key)
    requires Book(s) && CowEntry(s, k) && Private(s, s.pt[k].frame)
    ensures Book(s.(pt := s.pt[k := s.pt[k].(w := true, cow := false)]))
  {
    var s' := s.(pt := s.pt[k := s.pt[k].(w := true, cow := false)]);
    forall f ensures Owners(s', f) == Owners(s, f) { RefsPut(s.pt, k, s'.pt[k], f); }
    HandOver(s, s');
  }

  lemma SoloActs(s: Sys, e: Eager, k: Key)
    requires ActsOk(s, e) && k in s.pt && k.p !in s.act
    ensures ActsOk(s.(pt := s.pt[k := s.pt[k].(w := true, cow := false)]), e)
  {
    var s' := s.(pt := s.pt[k := s.pt[k].(w := true, cow := false)]);
    forall q | q in s'.act ensures ActOk(s', e, q) { assert ActOk(s, e, q); }
  }

  lemma SoloKeeps(s: Sys, e: Eager, p: int)
    requires Inv(s, e) && Enabled(s, e, SoloDone(p))
    ensures Inv(Apply(s, e, SoloDone(p)), e)
  {
    var k := Key(p, s.act[p].v);
    assert CowEntry(s, k) && Private(s, s.pt[k].frame) by { assert ActOk(s, e, p); }
    NoHoldDel(s, e, p);
    var t := Done(s, p);
    SoloBook(t, k);
    SoloActs(t, e, k);
    SoloView(t, e, k);
  }

  lemma SoloView(s: Sys, e: Eager, k: Key)
    requires ViewOk(s, e) && CowEntry(s, k)
    ensures ViewOk(s.(pt := s.pt[k := s.pt[k].(w := true, cow := false)]), e)
  {
  }

  lemma FaultFailKeeps(s: Sys, e: Eager, p: int)
    requires Inv(s, e) && Enabled(s, e, FaultFail(p))
    ensures Inv(Apply(s, e, FaultFail(p)), e)
  {
    NoHoldDel(s, e, p);
  }

  // Nobody uses a frame of count zero.
  lemma FreeUnused(s: Sys, f: int)
    requires Book(s) && f in s.count && s.count[f] == 0
    ensures forall k :: k in s.pt ==> s.pt[k].frame != f
    ensures forall p :: p in s.act ==> !Holds(s.act[p], f)
  {
    forall k | k in s.pt ensures s.pt[k].frame != f { RefCount(s, k); }
    forall p | p in s.act ensures !Holds(s.act[p], f) {
      if Holds(s.act[p], f) { HoldCount(s, p, f); }
    }
  }

  // Changing the bytes and count of a frame nobody uses is invisible.
  lemma UnusedView(s: Sys, e: Eager, f: int, pg: Page, n: int)
    requires ViewOk(s, e) && (forall k :: k in s.pt ==> s.pt[k].frame != f)
    ensures ViewOk(s.(mem := s.mem[f := pg], count := s.count[f := n]), e)
  {
  }

  lemma UnusedActs(s: Sys, e: Eager, f: int, pg: Page, n: int)
    requires ActsOk(s, e)
    requires forall k :: k in s.pt ==> s.pt[k].frame != f
    requires forall p :: p in s.act ==> !Holds(s.act[p], f)
    ensures ActsOk(s.(mem := s.mem[f := pg], count := s.count[f := n]), e)
  {
    var s' := s.(mem := s.mem[f := pg], count := s.count[f := n]);
    forall p | p in s'.act ensures ActOk(s', e, p) { assert ActOk(s, e, p) && !Holds(s.act[p], f); }
  }

  // Alloc as seen by everybody else
  lemma AllocOthers(s: Sys, e: Eager)
    requires Inv(s, e) && s.free != []
    ensures ViewOk(Alloc(s), e) && ActsOk(Alloc(s), e)
  {
    var f := s.free[0];
    assert f in s.free;
    FreeUnused(s, f);
    var t := s.(mem := s.mem[f := Fill(5)], count := s.count[f := 1]);
    assert ViewOk(Alloc(s), e) by {
      UnusedView(s, e, f, Fill(5), 1);
      FreeListView(t, e, s.free[1..], s.limbo);
    }
    assert ActsOk(Alloc(s), e) by {
      UnusedActs(s, e, f, Fill(5), 1);
      FreeListActs(t, e, s.free[1..], s.limbo);
    }
  }

  lemma FreeListView(s: Sys, e: Eager, free: seq<int>, limbo: set<int>)
    requires ViewOk(s, e)
    ensures ViewOk(s.(free := free, limbo := limbo), e)
  {
  }

  lemma FreeListActs(s: Sys, e: Eager, free: seq<int>, limbo: set<int>)
    requires ActsOk(s, e)
    ensures ActsOk(s.(free := free, limbo := limbo), e)
  {
    var s' := s.(free := free, limbo := limbo);
    forall p | p in s'.act ensures ActOk(s', e, p) { assert ActOk(s, e, p); }
  }

  lemma FaultAllocBook(s: Sys, p: int)
    requires Book(s) && s.free != [] && p in s.act && s.act[p].FaultCopy?
    ensures Book(Doing(Alloc(s), p, FaultMem(s.act[p].v, s.free[0])))
  {
    var s' := Doing(Alloc(s), p, FaultMem(s.act[p].v, s.free[0]));
    assert s.free[0] in s.free;
    forall f ensures Owners(s', f) == Owners(s, f) + One(f == s.free[0]) { HoldPut(s.act, p, s'.act[p], f); }
    AllocBook(s, s');
  }

  lemma FaultAllocKeeps(s: Sys, e: Eager, p: int)
    requires Inv(s, e) && Enabled(s, e, FaultAlloc(p))
    ensures Inv(Apply(s, e, FaultAlloc(p)), e)
  {
    assert CowEntry(s, Key(p, s.act[p].v)) by { assert ActOk(s, e, p); }
    FaultAllocBook(s, p);
    AllocOthers(s, e);
    ActView(Alloc(s), e, Apply(s, e, FaultAlloc(p)).act);
    ActsPut(Alloc(s), e, p, FaultMem(s.act[p].v, s.free[0]));
  }

  lemma KAllocKeeps(s: Sys, e: Eager)
    requires Inv(s, e) && Enabled(s, e, KAlloc)
    ensures Inv(Apply(s, e, KAlloc), e)
  {
    var s' := Alloc(s).(kern := s.kern + multiset{s.free[0]});
    assert Inv(s', e) by {
      KAllocBook(s);
      KAllocOthers(s, e);
    }
    assert Apply(s, e, KAlloc) == s';
  }

  lemma KAllocOthers(s: Sys, e: Eager)
    requires Inv(s, e) && s.free != []
    ensures var s' := Alloc(s).(kern := s.kern + multiset{s.free[0]}); ViewOk(s', e) && ActsOk(s', e)
  {
    var kern := s.kern + multiset{s.free[0]};
    AllocOthers(s, e);
    assert ViewOk(Alloc(s).(kern := kern), e) by { KernView(Alloc(s), e, kern); }
    assert ActsOk(Alloc(s).(kern := kern), e) by { KernActs(Alloc(s), e, kern); }
  }

  lemma KernView(s: Sys, e: Eager, kern: multiset<int>)
    requires ViewOk(s, e)
    ensures ViewOk(s.(kern := kern), e)
  {
  }

  lemma KAllocBook(s: Sys)
    requires Book(s) && s.free != []
    ensures Book(Alloc(s).(kern := s.kern + multiset{s.free[0]}))
  {
    assert s.free[0] in s.free;
    AllocBook(s, Alloc(s).(kern := s.kern + multiset{s.free[0]}));
  }

  lemma KernActs(s: Sys, e: Eager, kern: multiset<int>)
    requires ActsOk(s, e)
    ensures ActsOk(s.(kern := kern), e)
  {
    var s' := s.(kern := kern);
    forall p | p in s'.act ensures ActOk(s', e, p) { assert ActOk(s, e, p); }
  }

  // A frame held by a handler with count one is reachable by nobody else.
  lemma HeldPrivate(s: Sys, p: int, f: int)
    requires Book(s) && p in s.act && Holds(s.act[p], f) && Private(s, f)
    ensures forall k :: k in s.pt ==> s.pt[k].frame != f
    ensures forall q :: q in s.act && q != p ==> !Holds(s.act[q], f)
    ensures s.kern[f] == 0
  {
    HoldCount(s, p, f);
    forall k | k in s.pt ensures s.pt[k].frame != f { if s.pt[k].frame == f { RefAndHold(s, k, p); } }
    forall q | q in s.act && q != p ensures !Holds(s.act[q], f) {
      if Holds(s.act[q], f) { TwoHolders(s, p, q, f); }
    }
  }

  lemma MoveActs(s: Sys, e: Eager, p: int, f: int, v: int)
    requires ActsOk(s, e) && p in s.act && s.act[p] == FaultMem(v, f) && f in s.mem
    requires Key(p, v) in e.mem
    requires forall q :: q in s.act && q != p ==> !Holds(s.act[q], f)
    ensures ActsOk(Doing(s, p, FaultCopied(v, f)).(mem := s.mem[f := e.mem[Key(p, v)]]), e)
  {
    var s' := Doing(s, p, FaultCopied(v, f)).(mem := s.mem[f := e.mem[Key(p, v)]]);
    forall q | q in s'.act ensures ActOk(s', e, q) { assert ActOk(s, e, q); if q != p { assert !Holds(s.act[q], f); } }
  }

  lemma MoveBook(s: Sys, p: int, f: int, v: int, pg: Page)
    requires Book(s) && p in s.act && s.act[p] == FaultMem(v, f) && f in s.mem
    ensures Book(Doing(s, p, FaultCopied(v, f)).(mem := s.mem[f := pg]))
  {
    var s' := Doing(s, p, FaultCopied(v, f)).(mem := s.mem[f := pg]);
    forall g ensures NHold(s'.act, g) == NHold(s.act, g) { HoldPut(s.act, p, s'.act[p], g); }
    HandOver(s, s');
  }

  lemma MoveView(s: Sys, e: Eager, p: int, f: int, v: int, pg: Page)
    requires ViewOk(s, e) && p in s.act && s.act[p] == FaultMem(v, f)
    requires forall k :: k in s.pt ==> s.pt[k].frame != f
    ensures ViewOk(Doing(s, p, FaultCopied(v, f)).(mem := s.mem[f := pg]), e)
  {
  }

  lemma FaultMoveKeeps(s: Sys, e: Eager, p: int)
    requires Inv(s, e) && Enabled(s, e, FaultMove(p))
    ensures Inv(Apply(s, e, FaultMove(p)), e)
  {
    var v, f := s.act[p].v, s.act[p].f;
    assert Private(s, f) by { assert ActOk(s, e, p); }
    HeldPrivate(s, p, f);
    MoveBook(s, p, f, v, e.mem[Key(p, v)]);
    MoveActs(s, e, p, f, v);
    MoveView(s, e, p, f, v, e.mem[Key(p, v)]);
  }

  // ---------------------------------------------------------------------
  // Dropping a reference.

  // What is left of a frame's owners still sees its bytes.
  lemma DropView(s: Sys, t: Sys, e: Eager, f: int)
    requires Book(s) && f in s.count && ViewOk(t, e)
    requires t == s.(act := t.act, kern := t.kern, pt := t.pt)
    requires Owners(t, f) == Owners(s, f) - 1
    ensures ViewOk(Drop(t, f), e)
  {
    assert s.count[f] <= 1 ==> forall k :: k in t.pt ==> t.pt[k].frame != f by {
      if s.count[f] <= 1 { DropLast(s, t, f); }
    }
    UnseenView(t, Drop(t, f), e, f);
  }

  lemma DropLast(s: Sys, t: Sys, f: int)
    requires Counted(s) && f in s.count && s.count[f] <= 1 && Owners(t, f) == Owners(s, f) - 1
      && t == s.(act := t.act, kern := t.kern, pt := t.pt)
    ensures forall k :: k in t.pt ==> t.pt[k].frame != f
  {
    forall k | k in t.pt ensures t.pt[k].frame != f {
      if t.pt[k].frame == f { RefOne(t.pt, k); }
    }
  }

  // Only the bytes of a frame that no entry has may change.
  lemma UnseenView(s: Sys, s': Sys, e: Eager, f: int)
    requires ViewOk(s, e) && s'.pt == s.pt && s'.act == s.act && f in s'.mem
    requires s'.mem == s.mem || ((forall k :: k in s.pt ==> s.pt[k].frame != f) && s'.mem == s.mem[f := s'.mem[f]])
    ensures ViewOk(s', e)
  {
  }

  // A handler that keeps its act and its page keeps its frame.
  lemma DropAct(s: Sys, t: Sys, e: Eager, e': Eager, f: int, p: int)
    requires Book(s) && f in s.count && Closed(t)
    requires t == s.(act := t.act, kern := t.kern, pt := t.pt)
    requires Owners(t, f) == Owners(s, f) - 1
    requires p in s.act && p in t.act && t.act[p] == s.act[p] && ActOk(s, e, p)
    requires forall v ::
      (Key(p, v) in t.pt <==> Key(p, v) in s.pt) && (Key(p, v) in t.pt ==> t.pt[Key(p, v)] == s.pt[Key(p, v)])
    requires forall v :: Key(p, v) in e.mem ==> Key(p, v) in e'.mem && e'.mem[Key(p, v)] == e.mem[Key(p, v)]
    requires forall v :: Key(p, v) in e.wr ==> Key(p, v) in e'.wr
    requires forall v :: Key(p, v) in e.rx ==> Key(p, v) in e'.rx && e'.rx[Key(p, v)] == e.rx[Key(p, v)]
    ensures ActOk(Drop(t, f), e', p)
  {
    var a := s.act[p];
    if Holds(a, f) { HoldOne(t.act, p, f); }
    if a.FaultSolo? { RefOne(t.pt, Key(p, a.v)); }
  }

  lemma UnmapKeeps(s: Sys, e: Eager, k: Key)
    requires Inv(s, e) && Enabled(s, e, Unmap(k))
    ensures Inv(Apply(s, e, Unmap(k)), EApply(s, e, Unmap(k)))
  {
    UnmapBook(s, k);
    UnmapDropView(s, e, k);
    UnmapActs(s, e, k);
  }

  lemma UnmapBook(s: Sys, k: Key)
    requires Book(s) && k in s.pt && s.pt[k].frame in s.count
    ensures Book(Drop(s.(pt := s.pt - {k}), s.pt[k].frame))
  {
    UnmapOwners(s, k);
    DropBook(s, s.(pt := s.pt - {k}), s.pt[k].frame);
  }

  lemma UnmapDropView(s: Sys, e: Eager, k: Key)
    requires Book(s) && ViewOk(s, e) && k in s.pt && k.p !in s.act && s.pt[k].frame in s.count
    ensures ViewOk(Drop(s.(pt := s.pt - {k}), s.pt[k].frame), Eager(e.mem - {k}, e.wr - {k}, e.rx - {k}))
  {
    var t, e', f := s.(pt := s.pt - {k}), Eager(e.mem - {k}, e.wr - {k}, e.rx - {k}), s.pt[k].frame;
    assert Owners(t, f) == Owners(s, f) - 1 by { UnmapOwners(s, k); }
    assert ViewOk(t, e') by { UnmapView(s, e, k); }
    DropView(s, t, e', f);
  }

  lemma UnmapActs(s: Sys, e: Eager, k: Key)
    requires Book(s) && ActsOk(s, e) && k in s.pt && k.p !in s.act && s.pt[k].frame in s.count
    ensures ActsOk(Drop(s.(pt := s.pt - {k}), s.pt[k].frame), Eager(e.mem - {k}, e.wr - {k}, e.rx - {k}))
  {
    var t, e', f := s.(pt := s.pt - {k}), Eager(e.mem - {k}, e.wr - {k}, e.rx - {k}), s.pt[k].frame;
    assert Owners(t, f) == Owners(s, f) - 1 by { UnmapOwners(s, k); }
    forall p | p in t.act ensures ActOk(Drop(t, f), e', p) {
      assert ActOk(s, e, p);
      DropAct(s, t, e, e', f, p);
    }
  }

  lemma UnmapOwners(s: Sys, k: Key)
    requires k in s.pt
    ensures forall g :: Owners(s.(pt := s.pt - {k}), g) == Owners(s, g) - One(g == s.pt[k].frame)
  {
    forall g ensures Owners(s.(pt := s.pt - {k}), g) == Owners(s, g) - One(g == s.pt[k].frame) { RefsDel(s.pt, k, g); }
  }

  lemma UnmapView(s: Sys, e: Eager, k: Key)
    requires ViewOk(s, e) && k.p !in s.act
    ensures ViewOk(s.(pt := s.pt - {k}), Eager(e.mem - {k}, e.wr - {k}, e.rx - {k}))
  {
  }

  lemma KFreeKeeps(s: Sys, e: Eager, f: int)
    requires Inv(s, e) && Enabled(s, e, KFree(f))
    ensures Inv(Apply(s, e, KFree(f)), e)
  {
    KFreeBook(s, f);
    KFreeView(s, e, f);
    KFreeActs(s, e, f);
  }

  lemma KFreeBook(s: Sys, f: int)
    requires Book(s) && f in s.kern && f in s.count
    ensures Book(Drop(s.(kern := s.kern - multiset{f}), f))
  {
    KernOwners(s, f);
    DropBook(s, s.(kern := s.kern - multiset{f}), f);
  }

  lemma KFreeView(s: Sys, e: Eager, f: int)
    requires Book(s) && ViewOk(s, e) && f in s.kern && f in s.count
    ensures ViewOk(Drop(s.(kern := s.kern - multiset{f}), f), e)
  {
    var t := s.(kern := s.kern - multiset{f});
    assert Owners(t, f) == Owners(s, f) - 1 by { KernOwners(s, f); }
    DropView(s, t, e, f);
  }

  lemma KFreeActs(s: Sys, e: Eager, f: int)
    requires Book(s) && ActsOk(s, e) && f in s.kern && f in s.count
    ensures ActsOk(Drop(s.(kern := s.kern - multiset{f}), f), e)
  {
    var t := s.(kern := s.kern - multiset{f});
    assert Owners(t, f) == Owners(s, f) - 1 by { KernOwners(s, f); }
    forall p | p in t.act ensures ActOk(Drop(t, f), e, p) {
      assert ActOk(s, e, p);
      DropAct(s, t, e, e, f, p);
    }
  }

  lemma KernOwners(s: Sys, f: int)
    requires f in s.kern
    ensures forall g :: Owners(s.(kern := s.kern - multiset{f}), g) == Owners(s, g) - One(g == f)
  {
  }

  lemma PushKeeps(s: Sys, e: Eager, f: int)
    requires Inv(s, e) && Enabled(s, e, Push(f))
    ensures Inv(Apply(s, e, Push(f)), e)
  {
    var s' := s.(limbo := s.limbo - {f}, free := [f] + s.free);
    assert Apply(s, e, Push(f)) == s';
    assert ActsOk(s', e) by { FreeListActs(s, e, [f] + s.free, s.limbo - {f}); }
    assert ViewOk(s', e) by { FreeListView(s, e, [f] + s.free, s.limbo - {f}); }
    assert Book(s') by { PushBook(s, f); }
  }

  lemma PushBook(s: Sys, f: int)
    requires Book(s) && f in s.limbo
    ensures Book(s.(limbo := s.limbo - {f}, free := [f] + s.free))
  {
    var s' := s.(limbo := s.limbo - {f}, free := [f] + s.free);
    assert forall g :: g in s'.free <==> g == f || g in s.free;
    assert forall g :: g in s.count ==> Owners(s', g) == Owners(s, g);
  }

  lemma FaultUnmapIs(s: Sys, e: Eager, p: int)
    requires Enabled(s, e, FaultUnmap(p))
    ensures var k := Key(p, s.act[p].v); var a := FaultRemap(s.act[p].v, s.act[p].f, s.pt[k].rx);
      Apply(s, e, FaultUnmap(p)) == Drop(s.(pt := s.pt - {k}, act := s.act[p := a]), s.pt[k].frame)
  {
  }

  lemma FaultUnmapKeeps(s: Sys, e: Eager, p: int)
    requires Inv(s, e) && Enabled(s, e, FaultUnmap(p))
    ensures Inv(Apply(s, e, FaultUnmap(p)), e)
  {
    var k := Key(p, s.act[p].v);
    var a := FaultRemap(s.act[p].v, s.act[p].f, s.pt[k].rx);
    var s' := Drop(s.(pt := s.pt - {k}, act := s.act[p := a]), s.pt[k].frame);
    FaultUnmapIs(s, e, p);
    assert Book(s') by { RemapBook(s, p, a); }
    assert ActsOk(s', e) by { RemapActs(s, e, p, a); }
    assert ViewOk(s', e) by { RemapDropView(s, e, p, a); }
  }

  lemma RemapDropView(s: Sys, e: Eager, p: int, a: Act)
    requires Book(s) && ViewOk(s, e) && p in s.act && s.act[p].FaultCopied? && Key(p, s.act[p].v) in s.pt
    requires a.FaultRemap? && a.v == s.act[p].v && a.f == s.act[p].f && s.pt[Key(p, s.act[p].v)].frame in s.count
    ensures ViewOk(Drop(s.(pt := s.pt - {Key(p, s.act[p].v)}, act := s.act[p := a]), s.pt[Key(p, s.act[p].v)].frame), e)
  {
    var k := Key(p, s.act[p].v);
    var t := s.(pt := s.pt - {k}, act := s.act[p := a]);
    assert Owners(t, s.pt[k].frame) == Owners(s, s.pt[k].frame) - 1 by { RemapOwners(s, p, a); }
    assert ViewOk(t, e) by { RemapView(s, e, p, a); }
    DropView(s, t, e, s.pt[k].frame);
  }

  lemma RemapBook(s: Sys, p: int, a: Act)
    requires Book(s) && p in s.act && s.act[p].FaultCopied? && Key(p, s.act[p].v) in s.pt
    requires a.FaultRemap? && a.f == s.act[p].f
    ensures s.pt[Key(p, s.act[p].v)].frame in s.count
    ensures Book(Drop(s.(pt := s.pt - {Key(p, s.act[p].v)}, act := s.act[p := a]), s.pt[Key(p, s.act[p].v)].frame))
  {
    RemapOwners(s, p, a);
    var k := Key(p, s.act[p].v);
    DropBook(s, s.(pt := s.pt - {k}, act := s.act[p := a]), s.pt[k].frame);
  }

  lemma RemapView(s: Sys, e: Eager, p: int, a: Act)
    requires ViewOk(s, e) && p in s.act && s.act[p].FaultCopied? && a.FaultRemap? && a.v == s.act[p].v
    ensures ViewOk(s.(pt := s.pt - {Key(p, s.act[p].v)}, act := s.act[p := a]), e)
  {
  }

  lemma RemapActs(s: Sys, e: Eager, p: int, a: Act)
    requires Inv(s, e) && p in s.act && s.act[p].FaultCopied? && Key(p, s.act[p].v) in s.pt
    requires a.FaultRemap? && a.v == s.act[p].v && a.f == s.act[p].f && a.rx == s.pt[Key(p, s.act[p].v)].rx
    ensures s.pt[Key(p, s.act[p].v)].frame in s.count
    ensures ActsOk(Drop(s.(pt := s.pt - {Key(p, s.act[p].v)}, act := s.act[p := a]), s.pt[Key(p, s.act[p].v)].frame), e)
  {
    var k := Key(p, s.act[p].v);
    var t, f := s.(pt := s.pt - {k}, act := s.act[p := a]), s.pt[k].frame;
    RemapOwners(s, p, a);
    forall q | q in t.act ensures ActOk(Drop(t, f), e, q) {
      if q != p {
        assert ActOk(s, e, q);
        DropAct(s, t, e, e, f, q);
      } else {
        RemapOne(s, e, p, a);
      }
    }
  }

  lemma RemapOne(s: Sys, e: Eager, p: int, a: Act)
    requires Inv(s, e) && p in s.act && s.act[p].FaultCopied? && Key(p, s.act[p].v) in s.pt
    requires s.pt[Key(p, s.act[p].v)].frame in s.count
    requires a.FaultRemap? && a.v == s.act[p].v && a.f == s.act[p].f && a.rx == s.pt[Key(p, s.act[p].v)].rx
    ensures ActOk(Drop(s.(pt := s.pt - {Key(p, s.act[p].v)}, act := s.act[p := a]), s.pt[Key(p, s.act[p].v)].frame),
      e, p)
  {
    assert ActOk(s, e, p);
    HeldPrivate(s, p, a.f);
  }

  lemma RemapOwners(s: Sys, p: int, a: Act)
    requires p in s.act && s.act[p].FaultCopied? && Key(p, s.act[p].v) in s.pt
    requires a.FaultRemap? && a.f == s.act[p].f
    ensures var k := Key(p, s.act[p].v);
      forall g :: Owners(s.(pt := s.pt - {k}, act := s.act[p := a]), g) == Owners(s, g) - One(g == s.pt[k].frame)
  {
    var k := Key(p, s.act[p].v);
    forall g ensures Owners(s.(pt := s.pt - {k}, act := s.act[p := a]), g) == Owners(s, g) - One(g == s.pt[k].frame) {
      RefsDel(s.pt, k, g);
      HoldPut(s.act, p, a, g);
    }
  }

  // ---------------------------------------------------------------------
  // A held frame becomes a user entry.

  // Process p stops holding f and key k, so far unmapped, gets it.
  lemma MapOwners(s: Sys, p: int, act: map<int, Act>, k: Key, pte: Pte)
    requires k !in s.pt && p in s.act && Holds(s.act[p], pte.frame)
    requires act == s.act - {p} || (p in act && Empty(act[p]) && act == s.act[p := act[p]])
    ensures forall g :: Owners(s.(pt := s.pt[k := pte], act := act), g) == Owners(s, g)
  {
    forall g ensures Owners(s.(pt := s.pt[k := pte], act := act), g) == Owners(s, g) {
      RefsPut(s.pt, k, pte, g);
      if act == s.act - {p} { HoldDel(s.act, p, g); } else { HoldPut(s.act, p, act[p], g); }
    }
  }

  lemma MapClosed(s: Sys, p: int, act: map<int, Act>, k: Key, pte: Pte)
    requires Closed(s) && p in s.act && Holds(s.act[p], pte.frame)
    requires act == s.act - {p} || (p in act && Empty(act[p]) && act == s.act[p := act[p]])
    ensures Closed(s.(pt := s.pt[k := pte], act := act))
  {
    var s' := s.(pt := s.pt[k := pte], act := act);
    forall q, f | q in s'.act && Holds(s'.act[q], f) ensures f in s'.count { assert q in s.act && Holds(s.act[q], f); }
  }

  lemma PutExclusive(s: Sys, s': Sys, k: Key, pte: Pte)
    requires Exclusive(s) && s'.pt == s.pt[k := pte] && s'.count == s.count
      && (pte.w ==> !pte.cow && Private(s, pte.frame))
    ensures Exclusive(s')
  {
  }

  lemma MapBook(s: Sys, p: int, act: map<int, Act>, k: Key, pte: Pte)
    requires Book(s) && k !in s.pt && p in s.act && Holds(s.act[p], pte.frame)
    requires act == s.act - {p} || (p in act && Empty(act[p]) && act == s.act[p := act[p]])
    requires pte.w ==> !pte.cow && Private(s, pte.frame)
    ensures Book(s.(pt := s.pt[k := pte], act := act))
  {
    var s' := s.(pt := s.pt[k := pte], act := act);
    MapClosed(s, p, act, k, pte);
    PutExclusive(s, s', k, pte);
    MapOwners(s, p, act, k, pte);
    HandOver(s, s');
  }

  lemma MapActs(s: Sys, e: Eager, p: int, k: Key, pte: Pte)
    requires ActsOk(s, e) && k.p == p
    ensures ActsOk(s.(pt := s.pt[k := pte], act := s.act - {p}), e)
  {
    var s' := s.(pt := s.pt[k := pte], act := s.act - {p});
    forall q | q in s'.act ensures ActOk(s', e, q) { assert ActOk(s, e, q); }
  }

  lemma MapView(s: Sys, e: Eager, p: int, pte: Pte)
    requires ViewOk(s, e) && p in s.act && s.act[p].FaultRemap? && ActOk(s, e, p)
    requires pte.frame == s.act[p].f && pte.w && pte.u && pte.rx == s.act[p].rx
    ensures ViewOk(s.(pt := s.pt[Key(p, s.act[p].v) := pte], act := s.act - {p}), e)
  {
  }

  lemma FaultMapKeeps(s: Sys, e: Eager, p: int)
    requires Inv(s, e) && Enabled(s, e, FaultMap(p))
    ensures Inv(Apply(s, e, FaultMap(p)), e)
  {
    var k, pte := Key(p, s.act[p].v), Pte(s.act[p].f, true, true, false, s.act[p].rx);
    assert ActOk(s, e, p);
    MapBook(s, p, s.act - {p}, k, pte);
    MapView(s, e, p, pte);
    MapActs(s, e, p, k, pte);
  }

  // ---------------------------------------------------------------------
  // Fork.

  lemma ForkStartKeeps(s: Sys, e: Eager, p: int, c: int)
    requires Inv(s, e) && Enabled(s, e, ForkStart(p, c))
    ensures Inv(Apply(s, e, ForkStart(p, c)), e)
  {
    NoHoldPut(s, e, p, Forking(c));
  }

  lemma ForkEndKeeps(s: Sys, e: Eager, p: int)
    requires Inv(s, e) && Enabled(s, e, ForkEnd(p))
    ensures Inv(Apply(s, e, ForkEnd(p)), e)
  {
    NoHoldDel(s, e, p);
  }

  function Shared(pte: Pte): (pte': Pte) {
    if pte.w then pte.(w := false, cow := true) else pte
  }

  // inc_ref: the parent's entry loses W and process p holds one more reference.
  function Inc(s: Sys, p: int, k: Key, c: int): (s': Sys)
    requires k in s.pt && s.pt[k].frame in s.count
  {
    var f := s.pt[k].frame;
    s.(pt := s.pt[k := Shared(s.pt[k])], count := s.count[f := s.count[f] + 1], act := s.act[p := ForkRef(c, k.v, f)])
  }

  lemma IncOwners(s: Sys, p: int, k: Key, c: int)
    requires p in s.act && Empty(s.act[p]) && k in s.pt && s.pt[k].frame in s.count
    ensures forall g :: Owners(Inc(s, p, k, c), g) == Owners(s, g) + One(g == s.pt[k].frame)
  {
    var s' := Inc(s, p, k, c);
    forall g ensures Owners(s', g) == Owners(s, g) + One(g == s.pt[k].frame) {
      RefsPut(s.pt, k, Shared(s.pt[k]), g);
      HoldPut(s.act, p, s'.act[p], g);
    }
  }

  lemma IncExclusive(s: Sys, p: int, k: Key, c: int)
    requires Book(s) && k in s.pt && s.pt[k].frame in s.count
    ensures Exclusive(Inc(s, p, k, c))
  {
    var s' := Inc(s, p, k, c);
    forall k' | k' in s'.pt && s'.pt[k'].w ensures s'.pt[k'].frame != s.pt[k].frame { StoreFrame(s, k', k); }
  }

  lemma IncBook(s: Sys, p: int, k: Key, c: int)
    requires Book(s) && p in s.act && Empty(s.act[p]) && k in s.pt && s.pt[k].frame in s.count
    ensures Book(Inc(s, p, k, c))
  {
    RefCount(s, k);
    IncOwners(s, p, k, c);
    IncExclusive(s, p, k, c);
    assert FreeOk(Inc(s, p, k, c));
  }

  lemma IncView(s: Sys, e: Eager, p: int, k: Key, c: int)
    requires ViewOk(s, e) && p in s.act && s.act[p].Forking? && k in s.pt && s.pt[k].frame in s.count
    ensures ViewOk(Inc(s, p, k, c), e)
  {
  }

  lemma IncActs(s: Sys, e: Eager, p: int, k: Key, c: int)
    requires Book(s) && ActsOk(s, e) && p in s.act && s.act[p] == Forking(c) && k in s.pt && k.p == p
      && s.pt[k].frame in s.count
    ensures ActsOk(Inc(s, p, k, c), e)
  {
    var s', f := Inc(s, p, k, c), s.pt[k].frame;
    forall q | q in s'.act ensures ActOk(s', e, q) {
      assert ActOk(s, e, q);
      if q != p {
        if Holds(s.act[q], f) { RefAndHold(s, k, q); }
        if s.act[q].FaultSolo? && s.pt[Key(q, s.act[q].v)].frame == f { TwoRefs(s, k, Key(q, s.act[q].v)); }
      }
    }
  }

  lemma ForkIncKeeps(s: Sys, e: Eager, p: int, v: int)
    requires Inv(s, e) && Enabled(s, e, ForkInc(p, v))
    ensures Inv(Apply(s, e, ForkInc(p, v)), e)
  {
    var k, c := Key(p, v), s.act[p].c;
    assert Apply(s, e, ForkInc(p, v)) == Inc(s, p, k, c);
    assert Book(Inc(s, p, k, c)) by { IncBook(s, p, k, c); }
    assert ViewOk(Inc(s, p, k, c), e) by { IncView(s, e, p, k, c); }
    assert ActsOk(Inc(s, p, k, c), e) by { IncActs(s, e, p, k, c); }
  }

  // The child gets the parent's entry; the eager machine copies the page.
  lemma ForkMapView(s: Sys, e: Eager, p: int)
    requires ViewOk(s, e) && Enabled(s, e, ForkMap(p))
    ensures ViewOk(Apply(s, e, ForkMap(p)), EApply(s, e, ForkMap(p)))
  {
  }

  lemma ForkMapActs(s: Sys, e: Eager, p: int)
    requires ViewOk(s, e) && ActsOk(s, e) && Enabled(s, e, ForkMap(p))
    ensures ActsOk(Apply(s, e, ForkMap(p)), EApply(s, e, ForkMap(p)))
  {
    var s', e' := Apply(s, e, ForkMap(p)), EApply(s, e, ForkMap(p));
    assert ActOk(s, e, p);
    forall q | q in s'.act ensures ActOk(s', e', q) { if q != p { assert ActOk(s, e, q); } }
  }

  lemma ForkMapKeeps(s: Sys, e: Eager, p: int)
    requires Inv(s, e) && Enabled(s, e, ForkMap(p))
    ensures Inv(Apply(s, e, ForkMap(p)), EApply(s, e, ForkMap(p)))
  {
    var a := s.act[p];
    assert ActOk(s, e, p);
    MapBook(s, p, s.act[p := Forking(a.c)], Key(a.c, a.v), s.pt[Key(p, a.v)]);
    ForkMapView(s, e, p);
    ForkMapActs(s, e, p);
  }

  lemma ForkFailOwners(s: Sys, p: int)
    requires p in s.act && s.act[p].ForkRef?
    ensures forall g :: Owners(s.(act := s.act[p := Forking(s.act[p].c)]), g) == Owners(s, g) - One(g == s.act[p].f)
  {
    var t := s.(act := s.act[p := Forking(s.act[p].c)]);
    forall g ensures Owners(t, g) == Owners(s, g) - One(g == s.act[p].f) { HoldPut(s.act, p, t.act[p], g); }
  }

  lemma ForkFailIs(s: Sys, e: Eager, p: int)
    requires Enabled(s, e, ForkFail(p)) && s.act[p].f in s.count
    ensures Apply(s, e, ForkFail(p)) == Drop(s.(act := s.act[p := Forking(s.act[p].c)]), s.act[p].f)
  {
  }

  lemma ForkFailKeeps(s: Sys, e: Eager, p: int)
    requires Inv(s, e) && Enabled(s, e, ForkFail(p))
    ensures Inv(Apply(s, e, ForkFail(p)), e)
  {
    var s' := Drop(s.(act := s.act[p := Forking(s.act[p].c)]), s.act[p].f);
    ForkFailIs(s, e, p);
    assert Book(s') by { ForkFailBook(s, p); }
    assert ViewOk(s', e) by { ForkFailView(s, e, p); }
    assert ActsOk(s', e) by { ForkFailActs(s, e, p); }
  }

  lemma ForkFailBook(s: Sys, p: int)
    requires Book(s) && p in s.act && s.act[p].ForkRef? && s.act[p].f in s.count
    ensures Book(Drop(s.(act := s.act[p := Forking(s.act[p].c)]), s.act[p].f))
  {
    ForkFailOwners(s, p);
    DropBook(s, s.(act := s.act[p := Forking(s.act[p].c)]), s.act[p].f);
  }

  lemma ForkFailView(s: Sys, e: Eager, p: int)
    requires Book(s) && ViewOk(s, e) && p in s.act && s.act[p].ForkRef? && s.act[p].f in s.count
    ensures ViewOk(Drop(s.(act := s.act[p := Forking(s.act[p].c)]), s.act[p].f), e)
  {
    var t, f := s.(act := s.act[p := Forking(s.act[p].c)]), s.act[p].f;
    assert Owners(t, f) == Owners(s, f) - 1 by { ForkFailOwners(s, p); }
    assert ViewOk(t, e) by { ActView(s, e, t.act); }
    DropView(s, t, e, f);
  }

  lemma ForkFailActs(s: Sys, e: Eager, p: int)
    requires Book(s) && ActsOk(s, e) && p in s.act && s.act[p].ForkRef? && s.act[p].f in s.count
    ensures ActsOk(Drop(s.(act := s.act[p := Forking(s.act[p].c)]), s.act[p].f), e)
  {
    var t, f := s.(act := s.act[p := Forking(s.act[p].c)]), s.act[p].f;
    ForkFailOwners(s, p);
    forall q | q in t.act ensures ActOk(Drop(t, f), e, q) {
      assert ActOk(s, e, q);
      if q != p { DropAct(s, t, e, e, f, q); }
    }
  }

  // ---------------------------------------------------------------------
  // Growth.

  lemma KernPrivate(s: Sys, f: int)
    requires Book(s) && f in s.kern && Private(s, f)
    ensures forall k :: k in s.pt ==> s.pt[k].frame != f
    ensures forall p :: p in s.act ==> !Holds(s.act[p], f)
  {
    forall k | k in s.pt ensures s.pt[k].frame != f { RefCount(s, k); }
    forall p | p in s.act ensures !Holds(s.act[p], f) { if Holds(s.act[p], f) { HoldCount(s, p, f); } }
  }

  lemma GrowBook(s: Sys, k: Key, pte: Pte)
    requires Book(s) && k !in s.pt && pte.frame in s.kern && Private(s, pte.frame) && (pte.w ==> !pte.cow)
    ensures Book(s.(kern := s.kern - multiset{pte.frame}, pt := s.pt[k := pte], mem := s.mem[pte.frame := Fill(0)]))
  {
    var s' := s.(kern := s.kern - multiset{pte.frame}, pt := s.pt[k := pte], mem := s.mem[pte.frame := Fill(0)]);
    assert forall g :: g in s.count ==> Owners(s', g) == Owners(s, g) by {
      forall g ensures Owners(s', g) == Owners(s, g) { RefsPut(s.pt, k, pte, g); }
    }
    PutExclusive(s, s', k, pte);
    GrowClosed(s, k, pte);
    HandOver(s, s');
  }

  lemma GrowClosed(s: Sys, k: Key, pte: Pte)
    requires Closed(s) && pte.frame in s.kern
    ensures Closed(s.(kern := s.kern - multiset{pte.frame}, pt := s.pt[k := pte], mem := s.mem[pte.frame := Fill(0)]))
  {
  }

  lemma GrowKeeps(s: Sys, e: Eager, k: Key, f: int, w: bool, rx: int)
    requires Inv(s, e) && Enabled(s, e, Grow(k, f, w, rx))
    ensures Inv(Apply(s, e, Grow(k, f, w, rx)), EApply(s, e, Grow(k, f, w, rx)))
  {
    KernPrivate(s, f);
    GrowBook(s, k, Pte(f, true, w, false, rx));
    GrowView(s, e, k, f, w, rx);
    GrowActs(s, e, k, f, w, rx);
  }

  lemma GrowView(s: Sys, e: Eager, k: Key, f: int, w: bool, rx: int)
    requires ViewOk(s, e) && Enabled(s, e, Grow(k, f, w, rx)) && (forall k' :: k' in s.pt ==> s.pt[k'].frame != f)
    ensures ViewOk(Apply(s, e, Grow(k, f, w, rx)), EApply(s, e, Grow(k, f, w, rx)))
  {
    var s' := s.(kern := s.kern - multiset{f}, mem := s.mem[f := Fill(0)], pt := s.pt[k := Pte(f, true, w, false, rx)]);
    var e' := Eager(e.mem[k := Fill(0)], if w then e.wr + {k} else e.wr - {k}, e.rx[k := rx]);
    forall j | j in e'.mem ensures j in s'.pt || Remapping(s', j) { assert j == k || j in s.pt || Remapping(s, j); }
    forall j | j in s'.pt ensures j in e'.mem && s'.pt[j].frame in s'.mem && s'.mem[s'.pt[j].frame] == e'.mem[j] {
      assert j == k || s.pt[j].frame != f;
    }
    assert ViewOk(s', e');
  }

  lemma GrowActs(s: Sys, e: Eager, k: Key, f: int, w: bool, rx: int)
    requires ActsOk(s, e) && Enabled(s, e, Grow(k, f, w, rx)) && (forall p :: p in s.act ==> !Holds(s.act[p], f))
    ensures ActsOk(Apply(s, e, Grow(k, f, w, rx)), EApply(s, e, Grow(k, f, w, rx)))
  {
    var s', e' := Apply(s, e, Grow(k, f, w, rx)), EApply(s, e, Grow(k, f, w, rx));
    forall p | p in s'.act ensures ActOk(s', e', p) { assert ActOk(s, e, p) && !Holds(s.act[p], f); }
  }
}
