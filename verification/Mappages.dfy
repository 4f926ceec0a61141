/**
 vm.c's walk, walk_to_level and mappages, and the translation that mappages makes
 out of 4 KB and 2 MB leaves.
 */
module Mappages {
  import opened PageTable

  const PGSIZE: int := 4096
  const PGSIZE_2M: int := 2 * 1024 * 1024
  const MAXVA: int := 0x40_0000_0000
  const U64: int := 0x1_0000_0000_0000_0000

  // Done is mappages' 0, Failed its -1; the others are panics
  datatype Outcome = Done | Failed | Remap | BadAddress

  function PageDown(a: int): (r: int) { a - a % PGSIZE }

  // ---------------------------------------------------------------------
  // States are compared by the translations they stand for.

  ghost predicate Sound(vm: Vm) { Tree(vm) }

  ghost predicate SameAll(vm0: Vm, vm: Vm) {
    Tree(vm0) && Tree(vm) && forall w :: Vpn(w) ==> Translate(vm, w) == Translate(vm0, w)
  }

  ghost predicate Same(vm0: Vm, vm: Vm) { forall x :: x == vm ==> SameAll(vm0, x) }

  // Exactly the pages first .. first+n-1, all unmapped before, are mapped one to one from ppn.
  ghost predicate Extended(vm0: Vm, vm: Vm, first: int, n: int, ppn: int, perm: int) {
    && Tree(vm0) && Tree(vm) && 0 <= first && 0 <= n && first + n <= ENTRIES * SPAN
    && (forall w :: first <= w < first + n ==> Translate(vm0, w) == Fault)
    && (forall w :: Vpn(w) ==>
      Translate(vm, w) == if first <= w < first + n then Page(ppn + (w - first), perm) else Translate(vm0, w))
  }

  ghost predicate Ext(vm0: Vm, vm: Vm, first: int, n: int, ppn: int, perm: int) {
    forall x :: x == vm ==> Extended(vm0, x, first, n, ppn, perm)
  }

  // Table t is where a walk for v comes to at level l.
  ghost predicate Arrived(vm: Vm, v: int, l: int, t: int) {
    Tree(vm) && Vpn(v) && 0 <= l <= 2 && Reaches(vm, v, l, t)
  }

  ghost predicate At(vm: Vm, v: int, l: int, t: int) { forall x :: x == vm ==> Arrived(x, v, l, t) }

  // The level-1 entry for page v is in use, by a 2 MB leaf or by a level-0 table.
  ghost predicate InUse(vm: Vm, v: int) {
    Tree(vm) && Vpn(v) && exists t :: Arrived(vm, v, 1, t) && Entry1(vm, v, t)
  }

  // It is a 2 MB leaf.
  ghost predicate UnderHuge(vm: Vm, v: int) {
    Tree(vm) && Vpn(v) && exists t :: Arrived(vm, v, 1, t) && Leaf1(vm, v, t)
  }

  ghost predicate Leaf1(vm: Vm, v: int, t: int) {
    Entry1(vm, v, t) && vm.tables[t][Px(1, v)].leaf
  }

  ghost predicate Entry1(vm: Vm, v: int, t: int) {
    Vpn(v) && t in vm.tables && |vm.tables[t]| == ENTRIES && vm.tables[t][Px(1, v)].valid
  }

  // Page v is mapped.
  ghost predicate Taken(vm: Vm, v: int) { Tree(vm) && Vpn(v) && Translate(vm, v) != Fault }

  lemma AtTable(vm: Vm, v: int, l: int, t: int)
    requires At(vm, v, l, t)
    ensures t in vm.tables && t in vm.level && vm.level[t] == l && |vm.tables[t]| == ENTRIES
  {
    assert Arrived(vm, v, l, t);
    ReachesTable(vm, v, l, t);
  }

  lemma AtNew(vm: Vm, v: int, l: int, t: int, n: int)
    requires At(vm, v, l, t) && 0 < l <= 2 && Vpn(v) && n !in vm.tables
    requires t in vm.tables && t in vm.level && |vm.tables[t]| == ENTRIES && !vm.tables[t][Px(l, v)].valid
    ensures var vm' := AddTable(vm, t, Px(l, v), n);
      Sound(vm') && Same(vm, vm') && Walked(vm, vm', v) && At(vm', v, l - 1, n)
  {
    AtTable(vm, v, l, t);
    assert Arrived(vm, v, l, t);
    var vm' := AddTable(vm, t, Px(l, v), n);
    AddTableTree(vm, t, Px(l, v), n);
    AddTableReaches(vm, v, l, t, n);
    assert Arrived(vm', v, l - 1, n);
    AddTableWalked(vm, v, l, t, n);
    forall w | Vpn(w) ensures Translate(vm', w) == Translate(vm, w) { AddTableSame(vm, t, Px(l, v), n, w); }
    assert SameAll(vm, vm');
  }

  lemma AtNext(vm: Vm, v: int, l: int, t: int)
    requires At(vm, v, l, t) && 0 < l <= 2 && Vpn(v)
    requires t in vm.tables && |vm.tables[t]| == ENTRIES && vm.tables[t][Px(l, v)].valid
    ensures !vm.tables[t][Px(l, v)].leaf ==> At(vm, v, l - 1, vm.tables[t][Px(l, v)].ppn)
    ensures vm.tables[t][Px(l, v)].leaf ==> l == 1 && UnderHuge(vm, v)
  {
    AtTable(vm, v, l, t);
    assert Arrived(vm, v, l, t);
    assert EntryOk(vm, t, Px(l, v), vm.tables[t][Px(l, v)]);
    if !vm.tables[t][Px(l, v)].leaf {
      NextReaches(vm, v, l, t);
      assert Arrived(vm, v, l - 1, vm.tables[t][Px(l, v)].ppn);
    } else {
      assert Leaf1(vm, v, t);
    }
  }

  // Where a walk finds no entry, nothing is mapped.
  lemma NotMapped(vm: Vm, v: int, l: int, t: int)
    requires At(vm, v, l, t) && Vpn(v) && 0 <= l <= 2
    requires t in vm.tables && |vm.tables[t]| == ENTRIES && !vm.tables[t][Px(l, v)].valid
    ensures !Taken(vm, v)
  {
    assert Arrived(vm, v, l, t);
  }

  lemma HugeTaken(vm: Vm, v: int)
    requires UnderHuge(vm, v)
    ensures Taken(vm, v)
  {
    UsedBy(vm, v);
  }

  lemma SameSelf(vm: Vm)
    requires Sound(vm)
    ensures Same(vm, vm)
  {
    assert SameAll(vm, vm);
  }

  lemma SameTrans(a: Vm, b: Vm, c: Vm)
    requires Same(a, b) && Same(b, c)
    ensures Same(a, c)
  {
    assert SameAll(a, b) && SameAll(b, c);
    assert SameAll(a, c);
  }

  lemma SameTaken(a: Vm, b: Vm, v: int)
    requires Same(a, b)
    ensures Taken(a, v) <==> Taken(b, v)
  {
    assert SameAll(a, b);
  }

  // ---------------------------------------------------------------------
  // The steps of mappages' loop.

  lemma ExtStart(vm: Vm, first: int, ppn: int, perm: int)
    requires Sound(vm) && 0 <= first < ENTRIES * SPAN
    ensures Ext(vm, vm, first, 0, ppn, perm)
  {
    assert Extended(vm, vm, first, 0, ppn, perm);
  }

  lemma ExtSame(vm0: Vm, a: Vm, b: Vm, first: int, n: int, ppn: int, perm: int)
    requires Ext(vm0, a, first, n, ppn, perm) && Same(a, b)
    ensures Ext(vm0, b, first, n, ppn, perm)
  {
    assert Extended(vm0, a, first, n, ppn, perm) && SameAll(a, b);
    assert Extended(vm0, b, first, n, ppn, perm);
  }

  // A page beyond those mapped so far is as it was.
  lemma ExtTaken(vm0: Vm, vm: Vm, first: int, n: int, ppn: int, perm: int, v: int)
    requires Ext(vm0, vm, first, n, ppn, perm) && v >= first + n
    ensures Taken(vm, v) <==> Taken(vm0, v)
  {
    assert Extended(vm0, vm, first, n, ppn, perm);
  }

  lemma ExtSmall(vm0: Vm, vm: Vm, first: int, n: int, ppn: int, perm: int, t: int)
    requires Ext(vm0, vm, first, n, ppn, perm) && Vpn(first + n) && At(vm, first + n, 0, t)
    requires t in vm.tables && |vm.tables[t]| == ENTRIES && !vm.tables[t][Px(0, first + n)].valid
    ensures var vm' := SetEntry(vm, t, Px(0, first + n), Pte(true, true, ppn + n, perm));
      Sound(vm') && Ext(vm0, vm', first, n + 1, ppn, perm)
  {
    var v, e := first + n, Pte(true, true, ppn + n, perm);
    var vm' := SetEntry(vm, t, Px(0, v), e);
    AtTable(vm, v, 0, t);
    assert Arrived(vm, v, 0, t) && Extended(vm0, vm, first, n, ppn, perm);
    LeafTree(vm, t, Px(0, v), e);
    forall w | Vpn(w)
      ensures Translate(vm', w) == (if w == v then Page(ppn + n, perm) else Translate(vm, w))
        && Translate(vm, v) == Fault
    {
      SmallLeaf(vm, v, t, e, w);
    }
    assert Extended(vm0, vm', first, n + 1, ppn, perm);
  }

  lemma ExtHuge(vm0: Vm, vm: Vm, first: int, n: int, ppn: int, perm: int, t: int)
    requires Ext(vm0, vm, first, n, ppn, perm) && 0 <= first + n <= ENTRIES * SPAN - ENTRIES && At(vm, first + n, 1, t)
    requires (first + n) % ENTRIES == 0 && (ppn + n) % ENTRIES == 0
    requires t in vm.tables && |vm.tables[t]| == ENTRIES && !vm.tables[t][Px(1, first + n)].valid
    ensures var vm' := SetEntry(vm, t, Px(1, first + n), Pte(true, true, ppn + n, perm));
      Sound(vm') && Ext(vm0, vm', first, n + ENTRIES, ppn, perm)
  {
    var v, e := first + n, Pte(true, true, ppn + n, perm);
    var vm' := SetEntry(vm, t, Px(1, v), e);
    AtTable(vm, v, 1, t);
    assert Arrived(vm, v, 1, t) && Extended(vm0, vm, first, n, ppn, perm);
    LeafTree(vm, t, Px(1, v), e);
    forall w | Vpn(w)
      ensures Translate(vm', w) == if v <= w < v + ENTRIES then Page(ppn + n + (w - v), perm) else Translate(vm, w)
      ensures v <= w < v + ENTRIES ==> Translate(vm, w) == Fault
    {
      HugeLeaf(vm, v, t, e, w);
    }
    assert Extended(vm0, vm', first, n + ENTRIES, ppn, perm);
  }

  // Whatever mix of leaves two mappings are made of, the hardware sees the same pages.
  lemma MixIrrelevant(vm0: Vm, a: Vm, b: Vm, first: int, n: int, ppn: int, perm: int)
    requires Ext(vm0, a, first, n, ppn, perm) && Ext(vm0, b, first, n, ppn, perm)
    ensures Same(a, b)
  {
    assert Extended(vm0, a, first, n, ppn, perm) && Extended(vm0, b, first, n, ppn, perm);
    assert SameAll(a, b);
  }

  // A level-0 table is what the 2 MB branch takes for a mapping, whether it maps anything or not.
  lemma TableInUse(vm: Vm, v: int, t: int)
    requires At(vm, v, 0, t)
    ensures InUse(vm, v) && !UnderHuge(vm, v)
  {
    assert Arrived(vm, v, 0, t);
    var e2 := vm.tables[vm.root][Px(2, v)];
    assert EntryOk(vm, vm.root, Px(2, v), e2);
    assert Arrived(vm, v, 1, e2.ppn) && Entry1(vm, v, e2.ppn);
  }

  // ---------------------------------------------------------------------
  // What mappages answers, from the state before the call.

  // the turn for page v takes the 2 MB branch; base is what pa would be for page 0
  predicate HugeTurn(v: int, base: int, last: int) {
    v % ENTRIES == 0 && (base + PGSIZE * v) % PGSIZE_2M == 0 && last - v >= ENTRIES
  }

  // the answer and the page at which the loop stops
  datatype Answer = Answer(r: Outcome, v: int)

  // The answer for the pages from v on, if kalloc does not run out of pages.
  ghost function Expected(vm: Vm, v: int, base: int, last: int): (x: Answer)
    decreases last - v
  {
    if v > last then Answer(Done, v)
    else if !(0 <= v < MAXVA / PGSIZE) then Answer(BadAddress, v)
    else if HugeTurn(v, base, last) then
      if InUse(vm, v) then Answer(Remap, v) else Expected(vm, v + ENTRIES, base, last)
    else if UnderHuge(vm, v) then Answer(Failed, v)
    else if Taken(vm, v) then Answer(Remap, v)
    else Expected(vm, v + 1, base, last)
  }

  // One turn of the loop, for page v, agrees with it.
  ghost predicate TurnOk(vm: Vm, v: int, base: int, last: int, r: Outcome, k: int, out: bool) {
    var x := Expected(vm, v, base, last);
    && (r == Done ==> x == Expected(vm, v + k, base, last))
    && (r == Remap ==> x == Answer(Remap, v))
    && (r == Failed ==> x == Answer(Failed, v) || (out && v < x.v))
  }

  // The pages before v go through.
  ghost predicate GoesOn(vm: Vm, first: int, base: int, last: int, v: int) {
    Expected(vm, first, base, last) == Expected(vm, v, base, last)
  }

  ghost predicate SoFar(vm: Vm, first: int, base: int, last: int, v: int) {
    forall w :: w == v ==> GoesOn(vm, first, base, last, w)
  }

  // Stopping at page v with answer r is what was to be expected, or kalloc had no more pages.
  ghost predicate Foretold(vm: Vm, first: int, base: int, last: int, r: Outcome, v: int, out: bool) {
    var x := Expected(vm, first, base, last);
    x == Answer(r, v) || (r == Failed && out && v < x.v)
  }

  lemma TurnNext(vm: Vm, first: int, base: int, last: int, v: int, r: Outcome, k: int, out: bool)
    requires SoFar(vm, first, base, last, v) && TurnOk(vm, v, base, last, r, k, out) && r != BadAddress
    ensures if r == Done then SoFar(vm, first, base, last, v + k) else Foretold(vm, first, base, last, r, v, out)
  {
    assert GoesOn(vm, first, base, last, v);
    assert r == Done ==> GoesOn(vm, first, base, last, v + k);
  }

  lemma StopsDone(vm: Vm, first: int, base: int, last: int, v: int)
    requires SoFar(vm, first, base, last, v) && v > last
    ensures forall out :: Foretold(vm, first, base, last, Done, v, out)
  {
    assert GoesOn(vm, first, base, last, v);
  }

  lemma StopsBad(vm: Vm, first: int, base: int, last: int, v: int)
    requires SoFar(vm, first, base, last, v) && MAXVA / PGSIZE <= v <= last
    ensures forall out :: Foretold(vm, first, base, last, BadAddress, v, out)
  {
    assert GoesOn(vm, first, base, last, v);
  }

  lemma {:induction false} ExpectedFrom(vm: Vm, v: int, base: int, last: int)
    ensures Expected(vm, v, base, last).v >= v
    decreases last - v
  {
    if v <= last && 0 <= v < MAXVA / PGSIZE {
      if HugeTurn(v, base, last) {
        if !InUse(vm, v) { ExpectedFrom(vm, v + ENTRIES, base, last); }
      } else if !UnderHuge(vm, v) && !Taken(vm, v) {
        ExpectedFrom(vm, v + 1, base, last);
      }
    }
  }

  // the 2 MB branch would meet a used entry at page w
  ghost predicate Leftover(vm: Vm, w: int, base: int, last: int) { HugeTurn(w, base, last) && InUse(vm, w) }

  ghost predicate AnyLeftover(vm: Vm, v: int, base: int, last: int) {
    exists w :: v <= w <= last && Leftover(vm, w, base, last)
  }

  lemma NextAligned(v: int, w: int)
    requires v % ENTRIES == 0 && w % ENTRIES == 0 && v < w
    ensures w >= v + ENTRIES
  {
  }

  // Pages v .. v+k-1 need not be looked at.
  lemma SkipLeftover(vm: Vm, v: int, base: int, last: int, k: int)
    requires k == 1 || (k == ENTRIES && v % ENTRIES == 0)
    requires !Leftover(vm, v, base, last)
    ensures AnyLeftover(vm, v, base, last) <==> AnyLeftover(vm, v + k, base, last)
  {
    if AnyLeftover(vm, v, base, last) {
      var w :| v <= w <= last && Leftover(vm, w, base, last);
      assert w >= v + k by {
        assert w > v;
        if k == ENTRIES { NextAligned(v, w); }
      }
    }
  }

  ghost predicate Unmapped(vm: Vm, v: int, last: int) { forall w :: v <= w <= last ==> !Taken(vm, w) }

  // A range on which nothing is mapped can be mapped, unless a level-0 table was left where the 2 MB
  // branch is taken: then, and only then, mappages panics.
  lemma {:induction false} UnmappedIff(vm: Vm, v: int, base: int, last: int)
    requires 0 <= v && last < MAXVA / PGSIZE && Unmapped(vm, v, last)
    ensures Expected(vm, v, base, last).r == if AnyLeftover(vm, v, base, last) then Remap else Done
    decreases last - v
  {
    if v <= last {
      if Leftover(vm, v, base, last) {
        assert AnyLeftover(vm, v, base, last);
      } else {
        NotUnder(vm, v);
        var k := if HugeTurn(v, base, last) then ENTRIES else 1;
        SkipLeftover(vm, v, base, last, k);
        assert Unmapped(vm, v + k, last);
        UnmappedIff(vm, v + k, base, last);
      }
    }
  }

  // The level-1 entries from page v on are used as before.
  ghost predicate AheadAll(vm0: Vm, vm: Vm, v: int) {
    && (forall w :: w >= v ==> (UnderHuge(vm, w) <==> UnderHuge(vm0, w)))
    && (forall w :: w >= v && w % ENTRIES == 0 ==> (InUse(vm, w) <==> InUse(vm0, w)))
  }

  ghost predicate Ahead(vm0: Vm, vm: Vm, v: int) { forall x :: x == vm ==> AheadAll(vm0, x, v) }

  // The level-1 entries are used as before, but page v may have got a level-0 table.
  ghost predicate WalkedAll(vm0: Vm, vm: Vm, v: int) {
    && (forall w :: UnderHuge(vm, w) <==> UnderHuge(vm0, w))
    && (forall w :: w / ENTRIES != v / ENTRIES ==> (InUse(vm, w) <==> InUse(vm0, w)))
  }

  ghost predicate Walked(vm0: Vm, vm: Vm, v: int) { forall x :: x == vm ==> WalkedAll(vm0, x, v) }

  // Whether the level-1 entry for page w is used, and by a leaf, read off the tables.
  lemma UsedBy(vm: Vm, w: int)
    requires Tree(vm) && Vpn(w)
    ensures var e2 := vm.tables[vm.root][Px(2, w)];
      (e2.valid ==> e2.ppn in vm.tables && |vm.tables[e2.ppn]| == ENTRIES)
      && (InUse(vm, w) <==> e2.valid && vm.tables[e2.ppn][Px(1, w)].valid)
      && (UnderHuge(vm, w) <==> e2.valid && vm.tables[e2.ppn][Px(1, w)].valid && vm.tables[e2.ppn][Px(1, w)].leaf)
  {
    var e2 := vm.tables[vm.root][Px(2, w)];
    assert EntryOk(vm, vm.root, Px(2, w), e2);
    if e2.valid {
      assert Arrived(vm, w, 1, e2.ppn);
    }
  }

  lemma SameGroup(v: int, w: int)
    requires Vpn(v) && Vpn(w) && w / ENTRIES != v / ENTRIES
    ensures Px(2, v) != Px(2, w) || Px(1, v) != Px(1, w)
  {
    Digits(v);
    Digits(w);
  }

  lemma WalkedSelf(vm: Vm, v: int)
    ensures Walked(vm, vm, v)
  {
    assert WalkedAll(vm, vm, v);
  }

  lemma WalkedTrans(a: Vm, b: Vm, c: Vm, v: int)
    requires Walked(a, b, v) && Walked(b, c, v)
    ensures Walked(a, c, v)
  {
    assert WalkedAll(a, b, v) && WalkedAll(b, c, v);
    assert WalkedAll(a, c, v);
  }

  lemma AddTableWalked(vm: Vm, v: int, l: int, t: int, n: int)
    requires Arrived(vm, v, l, t) && 0 < l <= 2 && n !in vm.tables && t in vm.tables && t in vm.level
    requires |vm.tables[t]| == ENTRIES && !vm.tables[t][Px(l, v)].valid && Tree(AddTable(vm, t, Px(l, v), n))
    ensures WalkedAll(vm, AddTable(vm, t, Px(l, v), n), v)
  {
    var vm' := AddTable(vm, t, Px(l, v), n);
    forall w | Vpn(w)
      ensures UnderHuge(vm', w) <==> UnderHuge(vm, w)
      ensures w / ENTRIES != v / ENTRIES ==> (InUse(vm', w) <==> InUse(vm, w))
    {
      UsedBy(vm, w);
      UsedBy(vm', w);
      if w / ENTRIES != v / ENTRIES { SameGroup(v, w); }
      if l == 1 && vm.tables[vm.root][Px(2, w)].valid && vm.tables[vm.root][Px(2, w)].ppn == t {
        ReachesOnce(vm, v, w, 1, t);
      }
    }
  }

  // ---------------------------------------------------------------------
  // Which pages are under 2 MB leaves.

  ghost predicate SameLeavesAll(a: Vm, b: Vm) { forall w :: UnderHuge(b, w) <==> UnderHuge(a, w) }
  ghost predicate SameLeaves(a: Vm, b: Vm) { forall x :: x == b ==> SameLeavesAll(a, x) }

  // There is one more 2 MB leaf, for page v and the 511 that follow.
  ghost predicate OneMoreAll(a: Vm, b: Vm, v: int) {
    forall w :: UnderHuge(b, w) <==> UnderHuge(a, w) || v <= w < v + ENTRIES
  }

  ghost predicate OneMore(a: Vm, b: Vm, v: int) { forall x :: x == b ==> OneMoreAll(a, x, v) }

  lemma SameLeavesWalked(a: Vm, b: Vm, v: int)
    requires Walked(a, b, v)
    ensures SameLeaves(a, b)
  {
    assert WalkedAll(a, b, v);
    assert SameLeavesAll(a, b);
  }

  lemma SmallLeaves(a: Vm, b: Vm, v: int, t: int, e: Pte)
    requires Walked(a, b, v) && At(b, v, 0, t) && Vpn(v)
    requires t in b.tables && |b.tables[t]| == ENTRIES && Tree(SetEntry(b, t, Px(0, v), e))
    ensures SameLeaves(a, SetEntry(b, t, Px(0, v), e))
  {
    var c := SetEntry(b, t, Px(0, v), e);
    AtTable(b, v, 0, t);
    assert Arrived(b, v, 0, t) && WalkedAll(a, b, v);
    forall w ensures UnderHuge(c, w) <==> UnderHuge(a, w) {
      if Vpn(w) {
        UsedBy(b, w);
        UsedBy(c, w);
        SmallSame(b, v, t, e, w);
      }
    }
    assert SameLeavesAll(a, c);
  }

  lemma HugeLeaves(a: Vm, b: Vm, v: int, t: int, e: Pte)
    requires Walked(a, b, v) && At(b, v, 1, t) && Vpn(v) && v % ENTRIES == 0 && e.valid && e.leaf
    requires t in b.tables && |b.tables[t]| == ENTRIES && Tree(SetEntry(b, t, Px(1, v), e))
    ensures OneMore(a, SetEntry(b, t, Px(1, v), e), v)
  {
    var c := SetEntry(b, t, Px(1, v), e);
    AtTable(b, v, 1, t);
    assert Arrived(b, v, 1, t) && WalkedAll(a, b, v);
    forall w ensures UnderHuge(c, w) <==> UnderHuge(b, w) || v <= w < v + ENTRIES {
      HugeLeafAt(b, v, t, e, w);
    }
    assert OneMoreAll(a, c, v);
  }

  lemma HugeLeafAt(b: Vm, v: int, t: int, e: Pte, w: int)
    requires Arrived(b, v, 1, t) && v % ENTRIES == 0 && e.valid && e.leaf
    requires t in b.tables && t in b.level && b.level[t] == 1 && |b.tables[t]| == ENTRIES
    requires Tree(SetEntry(b, t, Px(1, v), e))
    ensures UnderHuge(SetEntry(b, t, Px(1, v), e), w) <==> UnderHuge(b, w) || v <= w < v + ENTRIES
  {
    var c := SetEntry(b, t, Px(1, v), e);
    GroupIn(v, w);
    if Vpn(w) {
      UsedBy(b, w);
      UsedBy(c, w);
      if w / ENTRIES == v / ENTRIES {
        SamePx(v, w);
      } else {
        SameGroup(v, w);
        if b.tables[b.root][Px(2, w)].valid && b.tables[b.root][Px(2, w)].ppn == t { ReachesOnce(b, v, w, 1, t); }
      }
    }
  }

  lemma GroupIn(v: int, w: int)
    requires Vpn(v) && v % ENTRIES == 0
    ensures v <= w < v + ENTRIES <==> w / ENTRIES == v / ENTRIES
    ensures w / ENTRIES == v / ENTRIES ==> Vpn(w)
  {
  }

  lemma SamePx(v: int, w: int)
    requires Vpn(v) && Vpn(w) && w / ENTRIES == v / ENTRIES
    ensures Px(2, v) == Px(2, w) && Px(1, v) == Px(1, w)
  {
    assert v / SPAN == v / ENTRIES / ENTRIES && w / SPAN == w / ENTRIES / ENTRIES;
  }

  // Page w is in a group of 512 that the call reaches from its first page on, that is aligned in
  // physical memory too, and behind which the request goes on.
  predicate Large(w: int, first: int, base: int, last: int) {
    w - w % ENTRIES >= first && base % PGSIZE_2M == 0 && w - w % ENTRIES + ENTRIES <= last
  }

  lemma TurnIsLarge(v: int, first: int, base: int, last: int)
    requires v % ENTRIES == 0 && v >= first
    ensures HugeTurn(v, base, last) <==> Large(v, first, base, last)
  {
    assert PGSIZE * v == PGSIZE_2M * (v / ENTRIES);
    assert (base + PGSIZE_2M * (v / ENTRIES)) % PGSIZE_2M == base % PGSIZE_2M;
  }

  // Of the pages first .. v-1 exactly the large ones are under 2 MB leaves, the others are as before.
  ghost predicate GrainAll(vm0: Vm, vm: Vm, first: int, v: int, base: int, last: int) {
    && (v % ENTRIES != 0 ==> !Large(v, first, base, last))
    && forall w :: UnderHuge(vm, w) <==> if first <= w < v then Large(w, first, base, last) else UnderHuge(vm0, w)
  }

  ghost predicate Grain(vm0: Vm, vm: Vm, first: int, v: int, base: int, last: int) {
    forall x :: x == vm ==> GrainAll(vm0, x, first, v, base, last)
  }

  lemma GrainStart(vm: Vm, first: int, base: int, last: int)
    ensures Grain(vm, vm, first, first, base, last)
  {
    assert GrainAll(vm, vm, first, first, base, last);
  }

  lemma GrainSame(vm0: Vm, a: Vm, b: Vm, first: int, v: int, base: int, last: int)
    requires Grain(vm0, a, first, v, base, last) && SameLeaves(a, b)
    ensures Grain(vm0, b, first, v, base, last)
  {
    assert GrainAll(vm0, a, first, v, base, last) && SameLeavesAll(a, b);
    assert GrainAll(vm0, b, first, v, base, last);
  }

  lemma GrainSmall(vm0: Vm, a: Vm, b: Vm, first: int, v: int, base: int, last: int)
    requires Grain(vm0, a, first, v, base, last) && SameLeaves(a, b) && first <= v
    requires !HugeTurn(v, base, last) && !UnderHuge(vm0, v)
    ensures Grain(vm0, b, first, v + 1, base, last)
  {
    assert GrainAll(vm0, a, first, v, base, last) && SameLeavesAll(a, b);
    if v % ENTRIES == 0 { TurnIsLarge(v, first, base, last); }
    assert !Large(v, first, base, last);
    assert GrainAll(vm0, b, first, v + 1, base, last);
  }

  lemma GrainHuge(vm0: Vm, a: Vm, b: Vm, first: int, v: int, base: int, last: int)
    requires Grain(vm0, a, first, v, base, last) && OneMore(a, b, v) && first <= v && HugeTurn(v, base, last)
    ensures Grain(vm0, b, first, v + ENTRIES, base, last)
  {
    assert GrainAll(vm0, a, first, v, base, last) && OneMoreAll(a, b, v);
    TurnIsLarge(v, first, base, last);
    forall w | v <= w < v + ENTRIES ensures Large(w, first, base, last) { assert w - w % ENTRIES == v; }
    assert GrainAll(vm0, b, first, v + ENTRIES, base, last);
  }

  // The next page's turn sees the level-1 entries as before, after a 4 KB leaf for page v
  lemma AheadSmall(vm0: Vm, a: Vm, b: Vm, v: int, t: int, e: Pte)
    requires Ahead(vm0, a, v) && Walked(a, b, v) && At(b, v, 0, t) && Vpn(v)
    requires t in b.tables && |b.tables[t]| == ENTRIES && Tree(SetEntry(b, t, Px(0, v), e))
    ensures Ahead(vm0, SetEntry(b, t, Px(0, v), e), v + 1)
  {
    var c := SetEntry(b, t, Px(0, v), e);
    AtTable(b, v, 0, t);
    assert Arrived(b, v, 0, t) && AheadAll(vm0, a, v) && WalkedAll(a, b, v);
    forall w | Vpn(w) ensures (InUse(c, w) <==> InUse(b, w)) && (UnderHuge(c, w) <==> UnderHuge(b, w)) {
      UsedBy(b, w);
      UsedBy(c, w);
      SmallSame(b, v, t, e, w);
    }
    forall w | w >= v + 1 && w % ENTRIES == 0 ensures InUse(c, w) <==> InUse(vm0, w) {
      assert w / ENTRIES != v / ENTRIES;
    }
    assert AheadAll(vm0, c, v + 1);
  }

  // A level-0 entry is no part of the tables above.
  lemma SmallSame(vm: Vm, v: int, t: int, e: Pte, w: int)
    requires Arrived(vm, v, 0, t) && Vpn(w) && t in vm.tables && t in vm.level && vm.level[t] == 0
      && |vm.tables[t]| == ENTRIES
    ensures var vm' := SetEntry(vm, t, Px(0, v), e);
      var e2 := vm.tables[vm.root][Px(2, w)];
      vm'.tables[vm.root] == vm.tables[vm.root]
        && (e2.valid ==> e2.ppn in vm.tables && vm'.tables[e2.ppn] == vm.tables[e2.ppn])
  {
    assert EntryOk(vm, vm.root, Px(2, w), vm.tables[vm.root][Px(2, w)]);
  }

  // and after a 2 MB leaf.
  lemma AheadHuge(vm0: Vm, a: Vm, b: Vm, v: int, t: int, e: Pte)
    requires Ahead(vm0, a, v) && Walked(a, b, v) && At(b, v, 1, t) && Vpn(v) && v % ENTRIES == 0
    requires t in b.tables && |b.tables[t]| == ENTRIES && Tree(SetEntry(b, t, Px(1, v), e))
    ensures Ahead(vm0, SetEntry(b, t, Px(1, v), e), v + ENTRIES)
  {
    var c := SetEntry(b, t, Px(1, v), e);
    AtTable(b, v, 1, t);
    assert Arrived(b, v, 1, t) && AheadAll(vm0, a, v) && WalkedAll(a, b, v);
    forall w | Vpn(w) && w >= v + ENTRIES
      ensures (InUse(c, w) <==> InUse(b, w)) && (UnderHuge(c, w) <==> UnderHuge(b, w))
    {
      assert w / ENTRIES != v / ENTRIES;
      SameGroup(v, w);
      UsedBy(b, w);
      UsedBy(c, w);
      if b.tables[b.root][Px(2, w)].valid && b.tables[b.root][Px(2, w)].ppn == t { ReachesOnce(b, v, w, 1, t); }
    }
    forall w | w >= v + ENTRIES ensures w / ENTRIES != v / ENTRIES {
    }
    assert AheadAll(vm0, c, v + ENTRIES);
  }

  lemma AheadStart(vm: Vm, v: int)
    ensures Ahead(vm, vm, v)
  {
    assert AheadAll(vm, vm, v);
  }

  // What the turn for page v finds is what was there before the call.
  lemma AheadNow(vm0: Vm, vm: Vm, v: int)
    requires Ahead(vm0, vm, v)
    ensures UnderHuge(vm, v) <==> UnderHuge(vm0, v)
    ensures v % ENTRIES == 0 ==> (InUse(vm, v) <==> InUse(vm0, v))
  {
    assert AheadAll(vm0, vm, v);
  }

  // The table a walk comes to at level 1 tells whether the entry is in use.
  lemma UsedIff(vm: Vm, v: int, t: int)
    requires At(vm, v, 1, t)
    ensures InUse(vm, v) <==> Entry1(vm, v, t)
  {
    assert Arrived(vm, v, 1, t);
    if InUse(vm, v) {
      var u :| Arrived(vm, v, 1, u) && Entry1(vm, v, u);
    }
  }

  lemma NoTable1(vm: Vm, v: int)
    requires Sound(vm) && Vpn(v) && |vm.tables[vm.root]| == ENTRIES && !vm.tables[vm.root][Px(2, v)].valid
    ensures !InUse(vm, v)
  {
  }

  class AddressSpace {
    const root: int
    var tables: map<int, seq<Pte>>
    var left: int      // how many pages kalloc can still give
    var brk: int     // the next page it gives

    ghost var level: map<int, int>
    ghost var up: map<int, Slot>

    ghost function Now(): (vm: Vm)
      reads this`tables, this`level, this`up
    {
      Vm(root, tables, level, up)
    }

    ghost predicate Valid()
      reads this
    {
      && 0 <= left && 0 < brk && (forall t :: t in tables ==> 0 < t < brk)
      && forall x :: x == Now() ==> Sound(x)
    }

    // uvmcreate: an empty root table, with pages to spare for more tables
    constructor (root: int, pages: int)
      requires 0 < root && 0 <= pages
      ensures Valid() && left == pages && forall v :: !Taken(Now(), v)
    {
      this.root, left, brk := root, pages, root + 1;
      tables := map[root := seq(ENTRIES, _ => EMPTY)];
      level, up := map[root := 2], map[];
      new;
      assert Sound(Now());
    }

    // kalloc of a page-table page
    method Kalloc() returns (n: int)
      requires Valid()
      modifies this`left, this`brk
      ensures n == 0 ==> left == old(left) == 0 && brk == old(brk)
      ensures n != 0 ==>
        0 <= left == old(left) - 1 && 0 < n < brk && n !in tables && forall t :: t in tables ==> t < brk
    {
      if left == 0 {
        return 0;
      }
      n := brk;
      left, brk := left - 1, brk + 1;
    }

    // The entry for v in table t has no table yet: make one.
    method NewTable(v: int, l: int, t: int) returns (n: int)
      requires Valid() && Vpn(v) && 0 < l <= 2 && At(Now(), v, l, t)
      requires t in tables && |tables[t]| == ENTRIES && !tables[t][Px(l, v)].valid
      modifies this
      ensures Valid() && Same(old(Now()), Now()) && Walked(old(Now()), Now(), v) && left >= old(left) - 1
      ensures n == 0 ==> left == 0
      ensures n != 0 ==> At(Now(), v, l - 1, n) && n in tables && tables[n] == seq(ENTRIES, _ => EMPTY)
    {
      ghost var vm := Now();
      AtTable(vm, v, l, t);
      n := Kalloc();
      if n == 0 {
        assert Sound(vm);
        SameSelf(vm);
        WalkedSelf(vm, v);
        return;
      }
      AtNew(vm, v, l, t, n);
      ghost var lv := level[t] - 1;
      tables := tables[t := tables[t][Px(l, v) := Pte(true, false, n, 0)]][n := seq(ENTRIES, _ => EMPTY)];
      level, up := level[n := lv], up[n := Slot(t, Px(l, v))];
      assert Now() == AddTable(vm, t, Px(l, v), n);
    }

    lemma Start(v: int)
      requires Valid() && Vpn(v)
      ensures At(Now(), v, 2, root) && Same(Now(), Now()) && Walked(Now(), Now(), v) && root in tables
    {
      assert Sound(Now());
      assert Arrived(Now(), v, 2, root);
      SameSelf(Now());
      WalkedSelf(Now(), v);
    }

    // walk with alloc set: the level-0 table for a, 0 if there is none.
    method Walk(a: int) returns (t: int)
      requires Valid() && 0 <= a < MAXVA
      modifies this
      ensures Valid() && Same(old(Now()), Now()) && Walked(old(Now()), Now(), a / PGSIZE) && left >= old(left) - 2
      ensures t == 0 ==> UnderHuge(Now(), a / PGSIZE) || (left == 0 && !Taken(Now(), a / PGSIZE))
      ensures t != 0 ==> At(Now(), a / PGSIZE, 0, t)
    {
      var v := a / PGSIZE;
      Start(v);
      t := root;
      var l := 2;
      while l > 0
        invariant 0 <= l <= 2 && Valid() && t != 0 && At(Now(), v, l, t) && left >= old(left) - 2 + l
        invariant Same(old(Now()), Now()) && Walked(old(Now()), Now(), v)
      {
        AtTable(Now(), v, l, t);
        ghost var vm := Now();
        if tables[t][Px(l, v)].valid {
          AtNext(vm, v, l, t);
          if tables[t][Px(l, v)].leaf {
            return 0;
          }
          t := tables[t][Px(l, v)].ppn;
          AtTable(vm, v, l - 1, t);
        } else {
          NotMapped(vm, v, l, t);
          t := NewTable(v, l, t);
          SameTrans(old(Now()), vm, Now());
          WalkedTrans(old(Now()), vm, Now(), v);
          if t == 0 {
            SameTaken(vm, Now(), v);
            return;
          }
        }
        l := l - 1;
      }
    }

    // walk_to_level for level 1: the level-1 table for a, 0 if there is none.
    method WalkToLevel1(a: int) returns (t: int)
      requires Valid() && 0 <= a < MAXVA
      modifies this
      ensures Valid() && Same(old(Now()), Now()) && Walked(old(Now()), Now(), a / PGSIZE)
      ensures t == 0 ==> left == 0
      ensures t != 0 ==>
        At(Now(), a / PGSIZE, 1, t) && (InUse(old(Now()), a / PGSIZE) <==> Entry1(Now(), a / PGSIZE, t))
      ensures t == 0 ==> !InUse(old(Now()), a / PGSIZE)
    {
      var v := a / PGSIZE;
      Start(v);
      ghost var vm0 := Now();
      t := root;
      var l := 2;
      while l > 1
        invariant 1 <= l <= 2 && Valid() && t != 0 && At(Now(), v, l, t)
        invariant Same(old(Now()), Now()) && Walked(old(Now()), Now(), v)
        invariant l == 2 ==> Now() == vm0 && t == root
        invariant l == 1 ==> (InUse(vm0, v) <==> Entry1(Now(), v, t))
      {
        AtTable(Now(), v, l, t);
        ghost var vm := Now();
        if tables[t][Px(l, v)].valid {
          AtNext(vm, v, l, t);
          t := tables[t][Px(l, v)].ppn;
          AtTable(vm, v, l - 1, t);
          UsedIff(vm, v, t);
        } else {
          NoTable1(vm, v);
          t := NewTable(v, l, t);
          SameTrans(old(Now()), vm, Now());
          WalkedTrans(old(Now()), vm, Now(), v);
          if t == 0 {
            return;
          }
        }
        l := l - 1;
      }
    }

    // The walk of a turn shows what was there before the call.
    static lemma Found(vm0: Vm, vm: Vm, vm1: Vm, first: int, n: int, ppn: int, perm: int)
      requires Ext(vm0, vm, first, n, ppn, perm) && Ahead(vm0, vm, first + n) && Same(vm, vm1)
        && Walked(vm, vm1, first + n)
      ensures Ext(vm0, vm1, first, n, ppn, perm) && (Taken(vm1, first + n) <==> Taken(vm0, first + n))
      ensures UnderHuge(vm1, first + n) <==> UnderHuge(vm0, first + n)
      ensures (first + n) % ENTRIES == 0 ==> (InUse(vm, first + n) <==> InUse(vm0, first + n))
    {
      ExtSame(vm0, vm, vm1, first, n, ppn, perm);
      ExtTaken(vm0, vm1, first, n, ppn, perm, first + n);
      AheadNow(vm0, vm, first + n);
      assert WalkedAll(vm, vm1, first + n);
    }

    // The level-0 table for page first + n, if its entry is free; vm is the state before the walk.
    method FindSmall(a: int, ghost vm0: Vm, ghost first: int, ghost n: int, ghost ppn: int, ghost perm: int)
        returns (r: Outcome, t: int, ghost vm: Vm)
      requires Valid() && 0 <= a < MAXVA && a / PGSIZE == first + n
      requires Ext(vm0, Now(), first, n, ppn, perm) && Ahead(vm0, Now(), first + n)
      modifies this
      ensures Valid() && Ext(vm0, Now(), first, n, ppn, perm) && Ahead(vm0, vm, first + n)
        && Walked(vm, Now(), first + n) && vm == old(Now())
      ensures r == Done ==>
        At(Now(), first + n, 0, t) && t in tables && |tables[t]| == ENTRIES && !tables[t][Px(0, first + n)].valid
      ensures r == Done ==> !Taken(vm0, first + n)
      ensures r == Remap ==> Taken(vm0, first + n) && !UnderHuge(vm0, first + n)
      ensures r == Failed ==> UnderHuge(vm0, first + n) || (left == 0 && !Taken(vm0, first + n))
      ensures r != BadAddress
    {
      vm := Now();
      t := Walk(a);
      Found(vm0, vm, Now(), first, n, ppn, perm);
      if t == 0 {
        return Failed, t, vm;
      }
      AtTable(Now(), first + n, 0, t);
      if tables[t][Px(0, a / PGSIZE)].valid {
        FullEntry(first + n, t);
        TableInUse(Now(), first + n, t);
        return Remap, t, vm;
      }
      NotMapped(Now(), first + n, 0, t);
      return Done, t, vm;
    }

    static lemma SmallDone(vm0: Vm, vm: Vm, vm1: Vm, first: int, n: int, ppn: int, perm: int, t: int)
      requires Ext(vm0, vm1, first, n, ppn, perm) && Vpn(first + n) && At(vm1, first + n, 0, t)
        && Ahead(vm0, vm, first + n) && Walked(vm, vm1, first + n)
      requires t in vm1.tables && |vm1.tables[t]| == ENTRIES && !vm1.tables[t][Px(0, first + n)].valid
      ensures var vm2 := SetEntry(vm1, t, Px(0, first + n), Pte(true, true, ppn + n, perm));
        Sound(vm2) && Ext(vm0, vm2, first, n + 1, ppn, perm) && Ahead(vm0, vm2, first + n + 1)
    {
      ExtSmall(vm0, vm1, first, n, ppn, perm, t);
      AheadSmall(vm0, vm, vm1, first + n, t, Pte(true, true, ppn + n, perm));
    }

    // One 4 KB leaf of mappages' loop, for page first + n.
    method MapSmall(a: int, pa: int, perm: int, ghost vm0: Vm, ghost first: int, ghost n: int, ghost ppn: int)
        returns (r: Outcome)
      requires Valid() && 0 <= a < MAXVA && a / PGSIZE == first + n && pa / PGSIZE == ppn + n
      requires Ext(vm0, Now(), first, n, ppn, perm) && Ahead(vm0, Now(), first + n)
      modifies this
      ensures Valid() && Ext(vm0, Now(), first, if r == Done then n + 1 else n, ppn, perm)
      ensures r == Done ==> Ahead(vm0, Now(), first + n + 1) && !Taken(vm0, first + n)
      ensures r == Remap ==> Taken(vm0, first + n) && !UnderHuge(vm0, first + n)
      ensures r == Failed ==> UnderHuge(vm0, first + n) || (left == 0 && !Taken(vm0, first + n))
      ensures r != BadAddress && SameLeaves(old(Now()), Now())
    {
      var t;
      ghost var vm;
      r, t, vm := FindSmall(a, vm0, first, n, ppn, perm);
      if r == Done {
        ghost var vm2 := SetEntry(Now(), t, Px(0, first + n), Pte(true, true, ppn + n, perm));
        SmallDone(vm0, vm, Now(), first, n, ppn, perm, t);
        SmallLeaves(vm, Now(), first + n, t, Pte(true, true, ppn + n, perm));
        tables := tables[t := tables[t][Px(0, a / PGSIZE) := Pte(true, true, pa / PGSIZE, perm)]];
        assert Now() == vm2;
      } else {
        SameLeavesWalked(vm, Now(), first + n);
      }
    }

    lemma FullEntry(v: int, t: int)
      requires Vpn(v) && At(Now(), v, 0, t) && t in tables && |tables[t]| == ENTRIES && tables[t][Px(0, v)].valid
      ensures Taken(Now(), v)
    {
      assert Arrived(Now(), v, 0, t);
    }

    // One 2 MB leaf of mappages' loop, for pages first + n and the 511 that follow.
    method MapHuge(a: int, pa: int, perm: int, ghost vm0: Vm, ghost first: int, ghost n: int, ghost ppn: int)
        returns (r: Outcome)
      requires Valid() && 0 <= a < MAXVA && a / PGSIZE == first + n && pa / PGSIZE == ppn + n
      requires a % PGSIZE_2M == 0 && pa % PGSIZE_2M == 0 && Ext(vm0, Now(), first, n, ppn, perm)
        && Ahead(vm0, Now(), first + n)
      modifies this
      ensures Valid() && Ext(vm0, Now(), first, if r == Done then n + ENTRIES else n, ppn, perm)
      ensures r == Done ==> Ahead(vm0, Now(), first + n + ENTRIES)
      ensures r == Remap <==> InUse(vm0, first + n)
      ensures r == Failed ==> left == 0
      ensures r != BadAddress
      ensures if r == Done then OneMore(old(Now()), Now(), first + n) else SameLeaves(old(Now()), Now())
    {
      ghost var vm := Now();
      var t := WalkToLevel1(a);
      ghost var vm1 := Now();
      Aligned(a, pa);
      Found(vm0, vm, vm1, first, n, ppn, perm);
      SameLeavesWalked(vm, vm1, first + n);
      if t == 0 {
        return Failed;
      }
      var v := a / PGSIZE;
      AtTable(vm1, v, 1, t);
      var i := Px(1, v);
      if tables[t][i].valid {
        return Remap;
      }
      ExtHuge(vm0, vm1, first, n, ppn, perm, t);
      tables := tables[t := tables[t][i := Pte(true, true, pa / PGSIZE, perm)]];
      AheadHuge(vm0, vm, vm1, v, t, Pte(true, true, pa / PGSIZE, perm));
      HugeLeaves(vm, vm1, v, t, Pte(true, true, pa / PGSIZE, perm));
      return Done;
    }

    lemma Aligned(a: int, pa: int)
      requires 0 <= a < MAXVA && a % PGSIZE_2M == 0 && pa % PGSIZE_2M == 0
      ensures a / PGSIZE % ENTRIES == 0 && pa / PGSIZE % ENTRIES == 0 && a / PGSIZE <= ENTRIES * SPAN - ENTRIES
    {
    }

    // mappages; n counts the pages that are mapped when it stops. A request that ends in Done is
    // carried out exactly, any other leaves a prefix of it. The answer can be told from the state
    // before the call, unless kalloc runs out of pages.
    method Mappages(va: int, size: int, pa: int, perm: int) returns (r: Outcome, ghost n: int)
      requires Valid() && 0 <= va && 0 <= size && va + size <= U64 && 0 <= pa
      modifies this
      ensures Valid() && 0 <= n
      ensures size == 0 ==> r == Done && Now() == old(Now())
      ensures size > 0 && va >= MAXVA ==> r == BadAddress && Now() == old(Now())
      ensures size > 0 && va < MAXVA ==> Ext(old(Now()), Now(), va / PGSIZE, n, pa / PGSIZE, perm)
      ensures size > 0 && va < MAXVA ==> Grain(old(Now()), Now(), va / PGSIZE, va / PGSIZE + n,
        pa - PGSIZE * (va / PGSIZE), (va + size - 1) / PGSIZE)
      ensures size > 0 && r == Done ==> n == (va + size - 1) / PGSIZE - va / PGSIZE + 1
      ensures size > 0 ==>
        Foretold(old(Now()), va / PGSIZE, pa - PGSIZE * (va / PGSIZE), (va + size - 1) / PGSIZE, r, va / PGSIZE + n,
          left == 0)
    {
      n := 0;
      if size == 0 {
        return Done, 0;
      }
      var a := PageDown(va);
      var last := PageDown(va + size - 1);
      Rounded(va, va + size - 1);
      if a >= MAXVA {
        ghost var base := pa - PGSIZE * (va / PGSIZE);
        assert GoesOn(Now(), va / PGSIZE, base, last / PGSIZE, va / PGSIZE);
        StopsBad(Now(), va / PGSIZE, base, last / PGSIZE, va / PGSIZE);
        return BadAddress, 0;
      }
      r, n := MapPages(a, last, pa, perm);
    }

    static lemma Rounded(va: int, end: int)
      requires 0 <= va <= end
      ensures PageDown(va) == PGSIZE * (va / PGSIZE) && PageDown(va) / PGSIZE == va / PGSIZE
      ensures PageDown(end) == PGSIZE * (end / PGSIZE) && PageDown(end) / PGSIZE == end / PGSIZE
        && va / PGSIZE <= end / PGSIZE
    {
    }

    // mappages' loop, from page address a to page address last
    method MapPages(a0: int, last: int, pa: int, perm: int) returns (r: Outcome, ghost n: int)
      requires Valid() && 0 <= a0 <= last && a0 < MAXVA && 0 <= pa && a0 == PGSIZE * (a0 / PGSIZE)
        && last == PGSIZE * (last / PGSIZE)
      modifies this
      ensures Valid() && 0 <= n && Ext(old(Now()), Now(), a0 / PGSIZE, n, pa / PGSIZE, perm)
      ensures r == Done ==> n == last / PGSIZE - a0 / PGSIZE + 1
      ensures Grain(old(Now()), Now(), a0 / PGSIZE, a0 / PGSIZE + n, pa - a0, last / PGSIZE)
      ensures Foretold(old(Now()), a0 / PGSIZE, pa - a0, last / PGSIZE, r, a0 / PGSIZE + n, left == 0)
    {
      n := 0;
      var a, p := a0, pa;
      ghost var vm0, first, ppn, lastv, base := Now(), a0 / PGSIZE, pa / PGSIZE, last / PGSIZE, pa - a0;
      assert GoesOn(vm0, first, base, lastv, first);
      assert Ext(vm0, vm0, first, 0, ppn, perm) by { assert Sound(vm0); ExtStart(vm0, first, ppn, perm); }
      AheadStart(vm0, first);
      GrainStart(vm0, first, base, lastv);
      while true
        invariant Valid() && 0 <= n && a == PGSIZE * (first + n) && p == pa + PGSIZE * n && a <= last
        invariant Ext(vm0, Now(), first, n, ppn, perm) && Ahead(vm0, Now(), first + n)
        invariant SoFar(vm0, first, base, lastv, first + n) && Grain(vm0, Now(), first, first + n, base, lastv)
        decreases last - a
      {
        Progress(a, p, first, ppn, n, pa, last);
        if a >= MAXVA {
          StopsBad(vm0, first, base, lastv, first + n);
          return BadAddress, n;
        }
        var k;
        r, k := MapTurn(a, p, perm, last, vm0, first, n, ppn, base, lastv);
        if r != Done {
          return;
        }
        n := n + k;
        if k == 1 && a == last {
          break;
        }
        a, p := a + PGSIZE * k, p + PGSIZE * k;
        if a > last {
          break;
        }
      }
      StopsDone(vm0, first, base, lastv, first + n);
      r := Done;
    }

    method MapTurn(a: int, p: int, perm: int, last: int, ghost vm0: Vm, ghost first: int, ghost n: int, ghost ppn: int,
        ghost base: int, ghost lastv: int)
      returns (r: Outcome, k: int)
      requires base == p - a && lastv == last / PGSIZE && Valid() && 0 <= a < MAXVA && a / PGSIZE == first + n
        && p / PGSIZE == ppn + n
      requires a <= last && a % PGSIZE == 0 && last % PGSIZE == 0
      requires Ext(vm0, Now(), first, n, ppn, perm) && Ahead(vm0, Now(), first + n)
        && SoFar(vm0, first, base, lastv, first + n) && Grain(vm0, Now(), first, first + n, base, lastv) && 0 <= n
      modifies this
      ensures Valid() && r != BadAddress && (k == 1 || (k == ENTRIES && last - a >= PGSIZE_2M - 1))
      ensures Grain(vm0, Now(), first, if r == Done then first + n + k else first + n, base, lastv)
      ensures Ext(vm0, Now(), first, if r == Done then n + k else n, ppn, perm)
      ensures r == Done ==> Ahead(vm0, Now(), first + n + k) && SoFar(vm0, first, base, lastv, first + n + k)
      ensures r != Done ==> Foretold(vm0, first, base, lastv, r, first + n, left == 0)
    {
      ghost var vm := Now();
      r, k := MapLeaf(a, p, perm, last, vm0, first, n, ppn, base, lastv);
      if r != Done {
        GrainSame(vm0, vm, Now(), first, first + n, base, lastv);
      } else if k == 1 {
        GrainSmall(vm0, vm, Now(), first, first + n, base, lastv);
      } else {
        GrainHuge(vm0, vm, Now(), first, first + n, base, lastv);
      }
      TurnNext(vm0, first, base, lastv, first + n, r, k, left == 0);
    }

    // One turn of mappages' loop: a 2 MB leaf if it fits, else a 4 KB leaf; k is how many pages it maps.
    method MapLeaf(a: int, p: int, perm: int, last: int, ghost vm0: Vm, ghost first: int, ghost n: int, ghost ppn: int,
        ghost base: int, ghost lastv: int)
      returns (r: Outcome, k: int)
      requires base == p - a && lastv == last / PGSIZE && Valid() && 0 <= a < MAXVA && a / PGSIZE == first + n
        && p / PGSIZE == ppn + n && a <= last && a % PGSIZE == 0 && last % PGSIZE == 0
      requires Ext(vm0, Now(), first, n, ppn, perm) && Ahead(vm0, Now(), first + n)
      modifies this
      ensures Valid() && r != BadAddress
        && k == if a % PGSIZE_2M == 0 && p % PGSIZE_2M == 0 && last - a >= PGSIZE_2M - 1 then ENTRIES else 1
      ensures k == if HugeTurn(first + n, base, lastv) then ENTRIES else 1
      ensures if r == Done && k == ENTRIES then OneMore(old(Now()), Now(), first + n) else SameLeaves(old(Now()), Now())
      ensures r == Done && k == 1 ==> !UnderHuge(vm0, first + n)
      ensures Ext(vm0, Now(), first, if r == Done then n + k else n, ppn, perm)
      ensures r == Done ==> Ahead(vm0, Now(), first + n + k)
      ensures TurnOk(vm0, first + n, base, lastv, r, k, left == 0)
    {
      Branch(a, p, last);
      if a % PGSIZE_2M == 0 && p % PGSIZE_2M == 0 && last - a >= PGSIZE_2M - 1 {
        r := MapHuge(a, p, perm, vm0, first, n, ppn);
        k := ENTRIES;
        ExpectedFrom(vm0, first + n + ENTRIES, base, lastv);
      } else {
        r := MapSmall(a, p, perm, vm0, first, n, ppn);
        k := 1;
        ExpectedFrom(vm0, first + n + 1, base, lastv);
        if UnderHuge(vm0, first + n) { HugeTaken(vm0, first + n); }
      }
    }

    static lemma Branch(a: int, p: int, last: int)
      requires 0 <= a <= last && a % PGSIZE == 0 && last % PGSIZE == 0 && a < MAXVA
      ensures HugeTurn(a / PGSIZE, p - a, last / PGSIZE) <==>
        a % PGSIZE_2M == 0 && p % PGSIZE_2M == 0 && last - a >= PGSIZE_2M - 1
      ensures 0 <= a / PGSIZE < MAXVA / PGSIZE && a / PGSIZE <= last / PGSIZE
    {
      var v, w := a / PGSIZE, last / PGSIZE;
      assert a == PGSIZE * v && last == PGSIZE * w;
      assert p - a + PGSIZE * v == p;
    }

    // The page and frame numbers of a turn of the loop, and how far a 2 MB step can go.
    static lemma Progress(a: int, p: int, first: int, ppn: int, n: int, pa: int, last: int)
      requires 0 <= n && 0 <= first && a == PGSIZE * (first + n) && p == pa + PGSIZE * n && ppn == pa / PGSIZE
      requires a <= last == PGSIZE * (last / PGSIZE)
      ensures a / PGSIZE == first + n && p / PGSIZE == ppn + n && a % PGSIZE == 0 && last % PGSIZE == 0
      ensures a < last ==> a + PGSIZE <= last
      ensures last - a >= PGSIZE_2M - 1 ==> a + PGSIZE_2M <= last
    {
    }
  }

  // The panic on an address space without a single mapping, in state vm: a walk has left its tables.
  method LeftoverTable(root: int, perm: int) returns (r: Outcome, ghost vm: Vm)
    requires 0 < root
    ensures r == Remap
    ensures (forall w :: !Taken(vm, w)) && Expected(vm, 0, 0, (2 * PGSIZE_2M - 1) / PGSIZE) == Answer(r, 0)
  {
    var space := new AddressSpace(root, 3);
    ghost var vm0 := space.Now();
    var t := space.Walk(0);
    vm := space.Now();
    forall w ensures !Taken(vm, w) { SameTaken(vm0, vm, w); }
    NotUnder(vm, 0);
    TableInUse(vm, 0, t);
    ghost var n;
    r, n := space.Mappages(0, 2 * PGSIZE_2M, 0, perm);
    assert HugeTurn(0, 0, (2 * PGSIZE_2M - 1) / PGSIZE);
    assert Expected(vm, 0, 0, (2 * PGSIZE_2M - 1) / PGSIZE) == Answer(Remap, 0);
  }

  lemma NotUnder(vm: Vm, v: int)
    requires !Taken(vm, v)
    ensures !UnderHuge(vm, v)
  {
    if UnderHuge(vm, v) { HugeTaken(vm, v); }
  }
}
