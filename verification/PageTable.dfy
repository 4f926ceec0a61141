/**
 Sv39 page tables: three levels of 512-entry tables, with 4 KB leaves at level 0
 and 2 MB leaves at level 1, and the translation they stand for.
 */
module PageTable {

  const ENTRIES: int := 512
  const SPAN: int := 262144        // pages under one level-2 entry

  // ppn is the page number of the next table, or of the page that is mapped;
  // leaf says that one of the R, W and X bits is set
  datatype Pte = Pte(valid: bool, leaf: bool, ppn: int, perm: int)

  const EMPTY: Pte := Pte(false, false, 0, 0)

  datatype Slot = Slot(table: int, index: int)

  // level says at which level each table is used, up which entry refers to it
  datatype Vm = Vm(root: int, tables: map<int, seq<Pte>>, level: map<int, int>, up: map<int, Slot>)

  datatype Translation = Fault | Page(ppn: int, perm: int)

  // Index of virtual page v in a table of level l.
  function Px(l: int, v: int): (i: int)
    requires 0 <= l <= 2 && 0 <= v < ENTRIES * SPAN
    ensures 0 <= i < ENTRIES
  {
    if l == 0 then v % ENTRIES else if l == 1 then v / ENTRIES % ENTRIES else v / SPAN
  }

  ghost predicate EntryOk(vm: Vm, t: int, i: int, e: Pte)
    requires t in vm.level
  {
    e.valid ==>
      if e.leaf then (vm.level[t] == 0 || vm.level[t] == 1) && (vm.level[t] == 1 ==> e.ppn % ENTRIES == 0)
      else vm.level[t] > 0 && e.ppn in vm.tables && e.ppn in vm.level && vm.level[e.ppn] == vm.level[t] - 1
           && e.ppn in vm.up && vm.up[e.ppn] == Slot(t, i)
  }

  // The tables form a tree.
  ghost predicate Tree(vm: Vm) {
    && vm.root in vm.tables && vm.root in vm.level && vm.level[vm.root] == 2
    && vm.level.Keys == vm.tables.Keys
    && (forall t :: t in vm.tables ==> |vm.tables[t]| == ENTRIES && 0 <= vm.level[t] <= 2)
    && (forall t :: t in vm.tables && vm.level[t] == 2 ==> t == vm.root)
    && (forall t, i :: t in vm.tables && 0 <= i < ENTRIES ==> EntryOk(vm, t, i, vm.tables[t][i]))
  }

  ghost predicate Vpn(v: int) { 0 <= v < ENTRIES * SPAN }

  // What the hardware makes of virtual page v.
  ghost function Translate(vm: Vm, v: int): (r: Translation)
    requires Tree(vm) && Vpn(v)
  {
    var e2 := vm.tables[vm.root][Px(2, v)];
    assert EntryOk(vm, vm.root, Px(2, v), e2);
    if !e2.valid then Fault
    else
      var e1 := vm.tables[e2.ppn][Px(1, v)];
      assert EntryOk(vm, e2.ppn, Px(1, v), e1);
      if !e1.valid then Fault
      else if e1.leaf then Page(e1.ppn + Px(0, v), e1.perm)
      else
        var e0 := vm.tables[e1.ppn][Px(0, v)];
        if e0.valid then Page(e0.ppn, e0.perm) else Fault
  }

  // Table t is the one that a walk for v comes to at level l.
  ghost predicate Reaches(vm: Vm, v: int, l: int, t: int)
    requires Tree(vm) && Vpn(v) && 0 <= l <= 2
  {
    var e2 := vm.tables[vm.root][Px(2, v)];
    assert EntryOk(vm, vm.root, Px(2, v), e2);
    if l == 2 then t == vm.root
    else if l == 1 then e2.valid && t == e2.ppn
    else
      e2.valid &&
      var e1 := vm.tables[e2.ppn][Px(1, v)];
      assert EntryOk(vm, e2.ppn, Px(1, v), e1);
      e1.valid && !e1.leaf && t == e1.ppn
  }

  lemma ReachesTable(vm: Vm, v: int, l: int, t: int)
    requires Tree(vm) && Vpn(v) && 0 <= l <= 2 && Reaches(vm, v, l, t)
    ensures t in vm.tables && vm.level[t] == l && |vm.tables[t]| == ENTRIES
  {
    assert EntryOk(vm, vm.root, Px(2, v), vm.tables[vm.root][Px(2, v)]);
    if l == 0 {
      var e2 := vm.tables[vm.root][Px(2, v)];
      assert EntryOk(vm, e2.ppn, Px(1, v), vm.tables[e2.ppn][Px(1, v)]);
    }
  }

  // Two walks come to the same table only along the same indices.
  lemma ReachesOnce(vm: Vm, v: int, w: int, l: int, t: int)
    requires Tree(vm) && Vpn(v) && Vpn(w) && 0 <= l <= 2 && Reaches(vm, v, l, t) && Reaches(vm, w, l, t)
    ensures l <= 1 ==> Px(2, v) == Px(2, w)
    ensures l == 0 ==> Px(1, v) == Px(1, w)
  {
    assert EntryOk(vm, vm.root, Px(2, v), vm.tables[vm.root][Px(2, v)]);
    assert EntryOk(vm, vm.root, Px(2, w), vm.tables[vm.root][Px(2, w)]);
    if l == 0 {
      var t1, u1 := vm.tables[vm.root][Px(2, v)].ppn, vm.tables[vm.root][Px(2, w)].ppn;
      assert EntryOk(vm, t1, Px(1, v), vm.tables[t1][Px(1, v)]);
      assert EntryOk(vm, u1, Px(1, w), vm.tables[u1][Px(1, w)]);
    }
  }

  ghost function SetEntry(vm: Vm, t: int, i: int, e: Pte): (vm': Vm)
    requires t in vm.tables && 0 <= i < |vm.tables[t]|
  {
    vm.(tables := vm.tables[t := vm.tables[t][i := e]])
  }

  // ---------------------------------------------------------------------
  // A new, empty table.

  ghost function AddTable(vm: Vm, t: int, i: int, n: int): (vm': Vm)
    requires t in vm.tables && 0 <= i < |vm.tables[t]| && t in vm.level
  {
    var s := SetEntry(vm, t, i, Pte(true, false, n, 0));
    Vm(vm.root, s.tables[n := seq(ENTRIES, _ => EMPTY)], vm.level[n := vm.level[t] - 1], vm.up[n := Slot(t, i)])
  }

  lemma AddTableTree(vm: Vm, t: int, i: int, n: int)
    requires Tree(vm) && t in vm.tables && 0 <= i < ENTRIES && vm.level[t] > 0 && !vm.tables[t][i].valid
      && n !in vm.tables
    ensures Tree(AddTable(vm, t, i, n))
  {
    var vm' := AddTable(vm, t, i, n);
    forall u, j | u in vm'.tables && 0 <= j < ENTRIES ensures EntryOk(vm', u, j, vm'.tables[u][j]) {
      if u in vm.tables {
        assert EntryOk(vm, u, j, vm.tables[u][j]);
      }
    }
  }

  // It changes no translation.
  lemma AddTableSame(vm: Vm, t: int, i: int, n: int, w: int)
    requires Tree(vm) && t in vm.tables && 0 <= i < ENTRIES && vm.level[t] > 0 && !vm.tables[t][i].valid
      && n !in vm.tables
    requires Vpn(w) && Tree(AddTable(vm, t, i, n))
    ensures Translate(AddTable(vm, t, i, n), w) == Translate(vm, w)
  {
    var e2 := vm.tables[vm.root][Px(2, w)];
    assert EntryOk(vm, vm.root, Px(2, w), e2);
    if e2.valid {
      assert EntryOk(vm, e2.ppn, Px(1, w), vm.tables[e2.ppn][Px(1, w)]);
    }
  }

  // A step of a walk through a new table.
  lemma AddTableReaches(vm: Vm, v: int, l: int, t: int, n: int)
    requires Tree(vm) && Vpn(v) && 0 < l <= 2 && Reaches(vm, v, l, t) && t in vm.tables && vm.level[t] == l
    requires !vm.tables[t][Px(l, v)].valid && n !in vm.tables && Tree(AddTable(vm, t, Px(l, v), n))
    ensures Reaches(AddTable(vm, t, Px(l, v), n), v, l - 1, n)
  {
    assert EntryOk(vm, vm.root, Px(2, v), vm.tables[vm.root][Px(2, v)]);
  }

  lemma NextReaches(vm: Vm, v: int, l: int, t: int)
    requires Tree(vm) && Vpn(v) && 0 < l <= 2 && Reaches(vm, v, l, t) && t in vm.tables
    requires vm.tables[t][Px(l, v)].valid && !vm.tables[t][Px(l, v)].leaf
    ensures Reaches(vm, v, l - 1, vm.tables[t][Px(l, v)].ppn)
  {
  }

  // ---------------------------------------------------------------------
  // New leaves.

  lemma LeafTree(vm: Vm, t: int, i: int, e: Pte)
    requires Tree(vm) && t in vm.tables && 0 <= i < ENTRIES && 0 <= vm.level[t] <= 1 && !vm.tables[t][i].valid
    requires e.valid && e.leaf && (vm.level[t] == 1 ==> e.ppn % ENTRIES == 0)
    ensures Tree(SetEntry(vm, t, i, e))
  {
    var vm' := SetEntry(vm, t, i, e);
    forall u, j | u in vm'.tables && 0 <= j < ENTRIES ensures EntryOk(vm', u, j, vm'.tables[u][j]) {
      assert EntryOk(vm, u, j, vm.tables[u][j]);
    }
  }

  lemma SamePage(v: int, w: int)
    requires Vpn(v) && Vpn(w) && Px(2, v) == Px(2, w) && Px(1, v) == Px(1, w)
    ensures w == v - v % ENTRIES + Px(0, w)
  {
    Digits(v);
    Digits(w);
  }

  // The three indices are the digits of the page number.
  lemma Digits(v: int)
    requires Vpn(v)
    ensures v == Px(2, v) * SPAN + Px(1, v) * ENTRIES + Px(0, v)
    ensures v / ENTRIES == Px(2, v) * ENTRIES + Px(1, v)
  {
    assert v / SPAN == v / ENTRIES / ENTRIES;
  }

  // A 4 KB leaf maps its own page.
  lemma SmallLeaf(vm: Vm, v: int, t: int, e: Pte, w: int)
    requires Tree(vm) && Vpn(v) && Vpn(w) && Reaches(vm, v, 0, t) && t in vm.tables && vm.level[t] == 0
    requires !vm.tables[t][Px(0, v)].valid && e.valid && e.leaf && Tree(SetEntry(vm, t, Px(0, v), e))
    ensures Translate(vm, v) == Fault
    ensures Translate(SetEntry(vm, t, Px(0, v), e), w) == if w == v then Page(e.ppn, e.perm) else Translate(vm, w)
  {
    var e2 := vm.tables[vm.root][Px(2, w)];
    assert EntryOk(vm, vm.root, Px(2, w), e2);
    if e2.valid {
      var e1 := vm.tables[e2.ppn][Px(1, w)];
      assert EntryOk(vm, e2.ppn, Px(1, w), e1);
      if e1.valid && !e1.leaf && e1.ppn == t {
        ReachesOnce(vm, v, w, 0, t);
        SamePage(v, w);
      }
    }
  }

  // A 2 MB leaf maps 512 pages, as 512 small leaves would.
  lemma HugeLeaf(vm: Vm, v: int, t: int, e: Pte, w: int)
    requires Tree(vm) && Vpn(v) && Vpn(w) && Reaches(vm, v, 1, t) && t in vm.tables && vm.level[t] == 1
      && v % ENTRIES == 0
    requires !vm.tables[t][Px(1, v)].valid && e.valid && e.leaf && Tree(SetEntry(vm, t, Px(1, v), e))
    ensures v <= w < v + ENTRIES ==> Translate(vm, w) == Fault
    ensures Translate(SetEntry(vm, t, Px(1, v), e), w) == if v <= w < v + ENTRIES then Page(e.ppn + (w - v), e.perm)
      else Translate(vm, w)
  {
    var e2 := vm.tables[vm.root][Px(2, w)];
    assert EntryOk(vm, vm.root, Px(2, w), e2);
    if v <= w < v + ENTRIES {
      assert w / ENTRIES == v / ENTRIES;
    }
    if e2.valid && e2.ppn == t {
      ReachesOnce(vm, v, w, 1, t);
      if Px(1, w) == Px(1, v) { SamePage(v, w); }
    }
    if e2.valid {
      assert EntryOk(vm, e2.ppn, Px(1, w), vm.tables[e2.ppn][Px(1, w)]);
    }
  }
}
