/**
 The heap of umalloc.c: a circular list of free blocks in address order, the
 blocks that were handed out, and the units of memory that both are made of.
 Addresses and sizes are in units of one Header (16 bytes).
 */
module FreeList {

  const BASE: int := 1     // address of the static header "base", below the heap

  // ptr and size are the header fields in memory. free holds the headers on the list, with BASE;
  // live the blocks handed out by malloc. own says of each unit got from sbrk which block has it.
  datatype Heap = Heap(ptr: map<int, int>, size: map<int, int>, free: set<int>, live: set<int>, own: map<int, int>)

  // Each link leads to the next higher header, the last back to BASE.
  ghost predicate LinkOk(free: set<int>, x: int, y: int) {
    && y in free
    && (x < y ==> forall z :: z in free ==> z <= x || y <= z)
    && (y <= x ==> y == BASE && forall z :: z in free ==> z <= x)
  }

  ghost predicate Link(free: set<int>, x: int, y: int) {
    forall f :: f == free ==> LinkOk(f, x, y)
  }

  ghost predicate Circular(h: Heap) {
    && BASE in h.free && (forall x :: x in h.free ==> BASE <= x)
    && (forall x :: x in h.free ==> x in h.ptr)
    && (forall x {:trigger h.ptr[x]} :: x in h.free ==> Link(h.free, x, h.ptr[x]))
  }

  // Blocks do not reach into the next one, nor up to it except those in loose.
  ghost predicate Gaps(h: Heap, loose: set<int>)
    requires Circular(h)
  {
    && (forall x :: x in h.free ==> x in h.size)
    && (forall x {:trigger h.ptr[x]} :: x in h.free && x < h.ptr[x] ==>
      x + h.size[x] <= h.ptr[x] && (x !in loose ==> x + h.size[x] < h.ptr[x]))
  }

  ghost predicate IsBlock(h: Heap, b: int) { (b in h.free && b != BASE) || b in h.live }

  // Every unit belongs to exactly one block, every block has exactly its units.
  ghost predicate Partition(h: Heap) {
    && BASE in h.size && h.size[BASE] == 0 && BASE !in h.live
    && (forall b :: b in h.free ==> b !in h.live)
    && Sized(h) && Covering(h) && Spanned(h)
  }

  ghost predicate Sized(h: Heap) { forall b :: IsBlock(h, b) ==> b in h.size && h.size[b] > 0 && b > BASE }

  ghost predicate Covering(h: Heap)
    requires Sized(h)
  {
    forall b, u :: IsBlock(h, b) && b <= u < b + h.size[b] ==> u in h.own && h.own[u] == b
  }

  ghost predicate Spanned(h: Heap)
    requires Sized(h)
  {
    forall u :: u in h.own ==> IsBlock(h, h.own[u]) && h.own[u] <= u < h.own[u] + h.size[h.own[u]]
  }

  ghost predicate Ok(h: Heap, loose: set<int>) { Circular(h) && Gaps(h, loose) && Partition(h) }

  // ---------------------------------------------------------------------
  // Putting a live block on the list, after p.

  ghost predicate Follows(h: Heap, p: int, b: int)
    requires Circular(h)
  {
    p in h.free && p < b && (b < h.ptr[p] || h.ptr[p] <= p)
  }

  ghost function Insert(h: Heap, p: int, b: int): (h': Heap)
    requires p in h.ptr
  {
    h.(ptr := h.ptr[b := h.ptr[p]][p := b], free := h.free + {b}, live := h.live - {b})
  }

  lemma LinkHalves(free: set<int>, p: int, b: int, q: int)
    requires Link(free, p, q) && p in free && p < b && (b < q || q <= p) && BASE in free
    ensures Link(free + {b}, p, b) && Link(free + {b}, b, q)
  {
    assert LinkOk(free, p, q);
    assert LinkOk(free + {b}, p, b) && LinkOk(free + {b}, b, q);
  }

  lemma LinkOther(free: set<int>, p: int, b: int, q: int, x: int, y: int)
    requires Link(free, p, q) && p in free && p < b && (b < q || q <= p)
    requires Link(free, x, y) && x in free && x != p
    ensures Link(free + {b}, x, y)
  {
    assert LinkOk(free, p, q) && LinkOk(free, x, y);
    assert LinkOk(free + {b}, x, y);
  }

  lemma InsertCircular(h: Heap, p: int, b: int)
    requires Circular(h) && Follows(h, p, b) && b !in h.free
    ensures Circular(Insert(h, p, b))
  {
    LinkHalves(h.free, p, b, h.ptr[p]);
    forall z | z in h.free && z != p ensures Link(h.free + {b}, z, h.ptr[z]) {
      LinkOther(h.free, p, b, h.ptr[p], z, h.ptr[z]);
    }
  }

  lemma InsertOk(h: Heap, p: int, b: int)
    requires Ok(h, {}) && b in h.live && Follows(h, p, b)
    ensures Ok(Insert(h, p, b), {p, b})
  {
    var h' := Insert(h, p, b);
    InsertCircular(h, p, b);
    assert forall c :: IsBlock(h', c) <==> IsBlock(h, c);
    Apart(h, p, b);
    assert LinkOk(h.free, p, h.ptr[p]);
    if b < h.ptr[p] { Apart(h, b, h.ptr[p]); }
  }

  lemma Covered(h: Heap, b: int, u: int)
    requires Partition(h) && IsBlock(h, b) && b <= u < b + h.size[b]
    ensures u in h.own && h.own[u] == b
  {
  }

  // Two blocks, or BASE and a block, do not overlap.
  lemma Apart(h: Heap, a: int, b: int)
    requires Partition(h) && (IsBlock(h, a) || a == BASE) && IsBlock(h, b) && a < b
    ensures a + h.size[a] <= b
  {
    Covered(h, b, b);
    if a != BASE && a + h.size[a] > b {
      Covered(h, a, b);
      assert false;
    }
  }

  // ---------------------------------------------------------------------
  // Merging block x with the block y that it reaches up to.

  ghost function Merge(h: Heap, x: int, y: int): (h': Heap)
    requires y in h.ptr && x in h.size && y in h.size
  {
    Heap(h.ptr[x := h.ptr[y]], h.size[x := h.size[x] + h.size[y]], h.free - {y}, h.live,
         map u | u in h.own :: if h.own[u] == y then x else h.own[u])
  }

  ghost predicate Adjacent(h: Heap, x: int, y: int) {
    && x in h.free && y in h.free && x in h.ptr && h.ptr[x] == y && x in h.size && y in h.size
    && x != BASE && x < y && x + h.size[x] == y
  }

  lemma LinkJoin(free: set<int>, x: int, y: int, n: int)
    requires Link(free, x, y) && Link(free, y, n) && x in free && x < y && BASE in free && BASE <= x
    ensures Link(free - {y}, x, n)
  {
    assert LinkOk(free, x, y) && LinkOk(free, y, n);
    assert LinkOk(free - {y}, x, n);
  }

  lemma LinkWithout(free: set<int>, x: int, y: int, z: int, n: int)
    requires Link(free, x, y) && Link(free, z, n) && x in free && z in free && z != x && z != y && BASE <= x < y
    ensures Link(free - {y}, z, n)
  {
    assert LinkOk(free, x, y) && LinkOk(free, z, n);
    assert LinkOk(free - {y}, z, n);
  }

  lemma MergeCircular(h: Heap, x: int, y: int)
    requires Circular(h) && Adjacent(h, x, y)
    ensures Circular(Merge(h, x, y))
  {
    LinkJoin(h.free, x, y, h.ptr[y]);
    forall z | z in h.free && z != x && z != y ensures Link(h.free - {y}, z, h.ptr[z]) {
      LinkWithout(h.free, x, y, z, h.ptr[z]);
    }
  }

  lemma MergePartition(h: Heap, x: int, y: int)
    requires Partition(h) && Adjacent(h, x, y) && y in h.ptr
    ensures Partition(Merge(h, x, y))
  {
    var h' := Merge(h, x, y);
    assert forall c :: IsBlock(h', c) <==> IsBlock(h, c) && c != y;
    forall b, u | IsBlock(h', b) && b <= u < b + h'.size[b] ensures u in h'.own && h'.own[u] == b {
      if b == x && u >= y {
        assert h.own[u] == y;
      } else {
        assert h.own[u] == b;
      }
    }
    forall u | u in h'.own ensures IsBlock(h', h'.own[u]) && h'.own[u] <= u < h'.own[u] + h'.size[h'.own[u]] {
      assert IsBlock(h, h.own[u]);
    }
  }

  lemma MergeOk(h: Heap, x: int, y: int, loose: set<int>)
    requires Ok(h, loose) && Adjacent(h, x, y) && y !in loose
    ensures Ok(Merge(h, x, y), loose - {x})
  {
    MergeCircular(h, x, y);
    MergePartition(h, x, y);
    var h' := Merge(h, x, y);
    forall z | z in h'.free && z < h'.ptr[z]
      ensures z + h'.size[z] <= h'.ptr[z] && (z !in loose - {x} ==> z + h'.size[z] < h'.ptr[z])
    {
      assert LinkOk(h.free, y, h.ptr[y]);
    }
  }

  // ---------------------------------------------------------------------
  // free as a whole.

  ghost function Freed(h: Heap, p: int, b: int): (h': Heap)
    requires p in h.ptr && h.ptr[p] in h.ptr && p in h.size && b in h.size && h.ptr[p] in h.size
  {
    var h1 := Insert(h, p, b);
    var q := h.ptr[p];
    var h2 := if b + h.size[b] == q then Merge(h1, b, q) else h1;
    if p + h.size[p] == b then Merge(h2, p, b) else h2
  }

  // Every live block other than b stays as it is, the units of b and no others become free.
  ghost predicate Frees(h: Heap, h': Heap, b: int) {
    && h'.live == h.live - {b} && h'.own.Keys == h.own.Keys
    && (forall u :: u in h.own ==>
      (h.own[u] in h'.live <==> h'.own[u] in h'.live) && (h'.own[u] in h'.live ==> h'.own[u] == h.own[u]))
    && (forall c :: c in h'.live ==> c in h.size && c in h'.size && h'.size[c] == h.size[c])
    && b in h.own && b in h.size && h'.own[b] in h'.free && h'.own[b] in h'.size && h'.size[h'.own[b]] >= h.size[b]
  }

  lemma NextHeader(h: Heap, p: int)
    requires Ok(h, {}) && p in h.free
    ensures h.ptr[p] in h.free && h.ptr[p] in h.ptr && p in h.size && h.ptr[p] in h.size
  {
    assert LinkOk(h.free, p, h.ptr[p]);
  }

  lemma MergeFrees(h: Heap, g: Heap, b: int, x: int, y: int)
    requires Frees(h, g, b) && Adjacent(g, x, y) && y in g.ptr && Partition(g)
      && (g.own[b] == y ==> g.size[y] >= h.size[b])
    ensures Frees(h, Merge(g, x, y), b)
  {
    assert y !in g.live && x !in g.live;
  }

  lemma InsertFrees(h: Heap, p: int, b: int)
    requires Ok(h, {}) && b in h.live && p in h.free
    ensures Frees(h, Insert(h, p, b), b)
  {
    Covered(h, b, b);
  }

  lemma UpperFrees(h: Heap, p: int, b: int)
    requires Ok(h, {}) && b in h.live && Follows(h, p, b) && h.ptr[p] in h.ptr && h.ptr[p] in h.size
    ensures var h1 := Insert(h, p, b);
      var h2 := if b + h.size[b] == h.ptr[p] then Merge(h1, b, h.ptr[p]) else h1;
      Ok(h2, {p}) && Frees(h, h2, b) && h2.ptr[p] == b && b in h2.free && h2.size[p] == h.size[p]
  {
    var h1, q := Insert(h, p, b), h.ptr[p];
    InsertOk(h, p, b);
    InsertFrees(h, p, b);
    if b + h.size[b] == q {
      NextHeader(h, p);
      MergeOk(h1, b, q, {p, b});
      MergeFrees(h, h1, b, b, q);
    }
  }

  lemma FreedOk(h: Heap, p: int, b: int)
    requires Ok(h, {}) && b in h.live && Follows(h, p, b) && h.ptr[p] in h.ptr && h.ptr[p] in h.size
    ensures Ok(Freed(h, p, b), {}) && Frees(h, Freed(h, p, b), b)
  {
    UpperFrees(h, p, b);
    var h1 := Insert(h, p, b);
    var h2 := if b + h.size[b] == h.ptr[p] then Merge(h1, b, h.ptr[p]) else h1;
    if p + h.size[p] == b {
      MergeOk(h2, p, b, {p});
      MergeFrees(h, h2, b, p, b);
    }
  }

  // ---------------------------------------------------------------------
  // malloc: a whole free block, or the tail of one.

  ghost function TakeWhole(h: Heap, prev: int, p: int): (h': Heap)
    requires p in h.ptr
  {
    h.(ptr := h.ptr[prev := h.ptr[p]], free := h.free - {p}, live := h.live + {p})
  }

  ghost function TakeTail(h: Heap, p: int, n: int): (h': Heap)
    requires p in h.size
  {
    var b := p + h.size[p] - n;
    Heap(h.ptr, h.size[p := h.size[p] - n][b := n], h.free, h.live + {b},
         map u | u in h.own :: if b <= u < b + n then b else h.own[u])
  }

  // Block b of n units, all free before, becomes live; other live blocks stay as they are.
  ghost predicate Takes(h: Heap, h': Heap, b: int, n: int) {
    && b !in h.live && h'.live == h.live + {b} && h'.own.Keys == h.own.Keys
    && b in h'.size && h'.size[b] == n
    && (forall u :: b <= u < b + n ==> u in h.own && h.own[u] !in h.live && h'.own[u] == b)
    && (forall u :: u in h.own && !(b <= u < b + n) ==> (h.own[u] in h.live <==> h'.own[u] in h'.live))
    && (forall u :: u in h.own && h.own[u] in h.live ==> h'.own[u] == h.own[u])
    && (forall c :: c in h.live ==> c in h.size && c in h'.size && h'.size[c] == h.size[c])
  }

  lemma WholeCircular(h: Heap, prev: int, p: int)
    requires Circular(h) && prev in h.free && h.ptr[prev] == p && p in h.free && p != BASE
    ensures Circular(TakeWhole(h, prev, p)) && prev < p
  {
    assert LinkOk(h.free, prev, h.ptr[prev]);
    LinkJoin(h.free, prev, p, h.ptr[p]);
    forall z | z in h.free && z != prev && z != p ensures Link(h.free - {p}, z, h.ptr[z]) {
      LinkWithout(h.free, prev, p, z, h.ptr[z]);
    }
  }

  lemma WholeOk(h: Heap, prev: int, p: int)
    requires Ok(h, {}) && prev in h.free && h.ptr[prev] == p && p in h.free && p != BASE
    ensures Ok(TakeWhole(h, prev, p), {}) && Takes(h, TakeWhole(h, prev, p), p, h.size[p])
  {
    var h' := TakeWhole(h, prev, p);
    WholeCircular(h, prev, p);
    assert forall c :: IsBlock(h', c) <==> IsBlock(h, c);
    assert LinkOk(h.free, p, h.ptr[p]);
    assert Gaps(h', {});
    forall u | p <= u < p + h.size[p] ensures u in h.own && h.own[u] == p { Covered(h, p, u); }
  }

  lemma TailNotBlock(h: Heap, p: int, n: int)
    requires Partition(h) && p in h.free && p != BASE && 0 < n < h.size[p]
    ensures !IsBlock(h, p + h.size[p] - n) && p + h.size[p] - n != BASE
    ensures forall c :: IsBlock(TakeTail(h, p, n), c) <==> IsBlock(h, c) || c == p + h.size[p] - n
  {
    var b := p + h.size[p] - n;
    Covered(h, p, b);
    if IsBlock(h, b) {
      Covered(h, b, b);
      assert false;
    }
  }

  // Unit u of block c after the tail was taken.
  lemma TailUnit(h: Heap, p: int, n: int, c: int, u: int)
    requires Partition(h) && p in h.free && p != BASE && 0 < n < h.size[p]
    requires IsBlock(TakeTail(h, p, n), c) && c in TakeTail(h, p, n).size && c <= u < c + TakeTail(h, p, n).size[c]
    ensures u in TakeTail(h, p, n).own && TakeTail(h, p, n).own[u] == c
  {
    TailNotBlock(h, p, n);
    var b := p + h.size[p] - n;
    if c == b {
      Covered(h, p, u);
    } else {
      Covered(h, c, u);
      if b <= u < b + n { Covered(h, p, u); }
    }
  }

  lemma TailPartition(h: Heap, p: int, n: int)
    requires Partition(h) && p in h.free && p != BASE && 0 < n < h.size[p]
    ensures Partition(TakeTail(h, p, n))
  {
    TailSized(h, p, n);
    TailCovering(h, p, n);
    TailSpanned(h, p, n);
    TailNotBlock(h, p, n);
  }

  lemma TailSized(h: Heap, p: int, n: int)
    requires Partition(h) && p in h.free && p != BASE && 0 < n < h.size[p]
    ensures Sized(TakeTail(h, p, n))
  {
    TailNotBlock(h, p, n);
  }

  lemma TailCovering(h: Heap, p: int, n: int)
    requires Partition(h) && p in h.free && p != BASE && 0 < n < h.size[p] && Sized(TakeTail(h, p, n))
    ensures Covering(TakeTail(h, p, n))
  {
    var h' := TakeTail(h, p, n);
    TailNotBlock(h, p, n);
    forall c, u | IsBlock(h', c) && c <= u < c + h'.size[c]
      ensures u in h'.own && h'.own[u] == c
    {
      TailUnit(h, p, n, c, u);
    }
  }

  lemma TailSpanned(h: Heap, p: int, n: int)
    requires Partition(h) && p in h.free && p != BASE && 0 < n < h.size[p] && Sized(TakeTail(h, p, n))
    ensures Spanned(TakeTail(h, p, n))
  {
    var h' := TakeTail(h, p, n);
    TailNotBlock(h, p, n);
    forall u | u in h'.own ensures IsBlock(h', h'.own[u]) && h'.own[u] <= u < h'.own[u] + h'.size[h'.own[u]] {
      assert IsBlock(h, h.own[u]);
    }
  }

  lemma TailTakes(h: Heap, p: int, n: int)
    requires Partition(h) && p in h.free && p != BASE && 0 < n < h.size[p]
    ensures Takes(h, TakeTail(h, p, n), p + h.size[p] - n, n)
  {
    var b := p + h.size[p] - n;
    TailNotBlock(h, p, n);
    forall u | b <= u < b + n ensures u in h.own && h.own[u] == p { Covered(h, p, u); }
  }

  lemma TailOk(h: Heap, p: int, n: int)
    requires Ok(h, {}) && p in h.free && p != BASE && 0 < n < h.size[p]
    ensures Ok(TakeTail(h, p, n), {}) && Takes(h, TakeTail(h, p, n), p + h.size[p] - n, n)
  {
    TailPartition(h, p, n);
    TailTakes(h, p, n);
    assert Circular(TakeTail(h, p, n));
    TailNotBlock(h, p, n);
  }

  // ---------------------------------------------------------------------
  // morecore: new units at the top, first as a live block.

  ghost function Units(b: int, n: int): (s: set<int>)
    ensures forall u :: u in s <==> b <= u < b + n
    decreases if n > 0 then n else 0
  {
    if n <= 0 then {} else Units(b, n - 1) + {b + n - 1}
  }

  ghost function AddCore(h: Heap, b: int, n: int): (h': Heap) {
    h.(size := h.size[b := n], live := h.live + {b},
       own := map u | u in h.own.Keys + Units(b, n) :: if u in h.own then h.own[u] else b)
  }

  lemma CoreNotBlock(h: Heap, b: int, n: int)
    requires Partition(h) && b > BASE && forall u :: u in h.own ==> u < b
    ensures !IsBlock(h, b) && forall c :: IsBlock(AddCore(h, b, n), c) <==> IsBlock(h, c) || c == b
  {
    if IsBlock(h, b) {
      Covered(h, b, b);
      assert false;
    }
  }

  // what morecore starts from
  ghost predicate AtTop(h: Heap, b: int, n: int) {
    Partition(h) && n > 0 && b > BASE && forall u :: u in h.own ==> u < b
  }

  lemma CoreSized(h: Heap, b: int, n: int)
    requires AtTop(h, b, n)
    ensures Sized(AddCore(h, b, n))
  {
    CoreNotBlock(h, b, n);
  }

  lemma CoreSpanned(h: Heap, b: int, n: int)
    requires AtTop(h, b, n) && Sized(AddCore(h, b, n))
    ensures Spanned(AddCore(h, b, n))
  {
    CoreNotBlock(h, b, n);
    var h' := AddCore(h, b, n);
    forall u | u in h'.own ensures IsBlock(h', h'.own[u]) && h'.own[u] <= u < h'.own[u] + h'.size[h'.own[u]] {
      if u in h.own { assert IsBlock(h, h.own[u]) && h.own[u] != b; }
    }
  }

  lemma CoreCovering(h: Heap, b: int, n: int)
    requires AtTop(h, b, n) && Sized(AddCore(h, b, n))
    ensures Covering(AddCore(h, b, n))
  {
    CoreNotBlock(h, b, n);
    var h' := AddCore(h, b, n);
    forall c, u | IsBlock(h', c) && c <= u < c + h'.size[c] ensures u in h'.own && h'.own[u] == c {
      if c != b { Covered(h, c, u); }
    }
  }

  lemma CorePartition(h: Heap, b: int, n: int)
    requires AtTop(h, b, n)
    ensures Partition(AddCore(h, b, n))
  {
    CoreNotBlock(h, b, n);
    CoreSized(h, b, n);
    CoreCovering(h, b, n);
    CoreSpanned(h, b, n);
  }

  lemma CoreOk(h: Heap, b: int, n: int)
    requires Ok(h, {}) && n > 0 && b > BASE && forall u :: u in h.own ==> u < b
    ensures Ok(AddCore(h, b, n), {}) && b in AddCore(h, b, n).live && b !in h.live && b !in h.free
    ensures forall c :: c in h.live ==> c in h.size && AddCore(h, b, n).size[c] == h.size[c]
  {
    CoreNotBlock(h, b, n);
    CorePartition(h, b, n);
    assert Circular(AddCore(h, b, n));
  }

  // Free and live units together are the units got from sbrk.
  lemma Conservation(h: Heap, loose: set<int>)
    requires Ok(h, loose)
    ensures |set u | u in h.own && h.own[u] in h.free| + |set u | u in h.own && h.own[u] in h.live| == |h.own.Keys|
  {
    var f, l := set u | u in h.own && h.own[u] in h.free, set u | u in h.own && h.own[u] in h.live;
    forall u | u in h.own.Keys ensures u in f + l && u !in f * l { assert IsBlock(h, h.own[u]); }
    assert f + l == h.own.Keys;
    assert f * l == {};
  }

  // ---------------------------------------------------------------------
  // What malloc does to the blocks handed out before.

  // More units may have come, all free; live blocks stay as they are.
  ghost predicate Enlarges(h: Heap, h': Heap) {
    && h'.live == h.live && h.own.Keys <= h'.own.Keys
    && (forall u :: u in h.own && h.own[u] in h.live ==> h'.own[u] == h.own[u])
    && (forall u :: u in h'.own && h'.own[u] in h.live ==> u in h.own && h.own[u] == h'.own[u])
    && (forall c :: c in h.live ==> c in h.size && c in h'.size && h'.size[c] == h.size[c])
  }

  // Block b of n units, none of them live before, is handed out as well.
  ghost predicate Serves(h: Heap, h': Heap, b: int, n: int) {
    && b !in h.live && h'.live == h.live + {b} && h.own.Keys <= h'.own.Keys && b in h'.size && h'.size[b] == n
    && (forall u :: b <= u < b + n ==> u in h'.own && h'.own[u] == b && (u in h.own ==> h.own[u] !in h.live))
    && (forall u :: u in h.own && h.own[u] in h.live ==> h'.own[u] == h.own[u])
    && (forall u :: u in h'.own && h'.own[u] in h'.live && h'.own[u] != b ==> u in h.own && h.own[u] == h'.own[u])
    && (forall c :: c in h.live ==> c in h.size && c in h'.size && h'.size[c] == h.size[c])
  }

  lemma EnlargesSelf(h: Heap)
    requires Partition(h)
    ensures Enlarges(h, h)
  {
    assert forall c :: c in h.live ==> IsBlock(h, c);
  }

  lemma CoreEnlarges(h: Heap, h': Heap, b: int, n: int)
    requires Ok(h, {}) && n > 0 && b > BASE && (forall u :: u in h.own ==> u < b) && Frees(AddCore(h, b, n), h', b)
    ensures Enlarges(h, h')
  {
    CoreOk(h, b, n);
    var g := AddCore(h, b, n);
    assert h'.live == h.live;
    forall u | u in h.own && h.own[u] in h.live ensures h'.own[u] == h.own[u] { assert u in g.own; }
    forall u | u in h'.own && h'.own[u] in h.live ensures u in h.own && h.own[u] == h'.own[u] { assert u in g.own; }
  }

  lemma EnlargesServes(h: Heap, g: Heap, h': Heap, b: int, n: int)
    requires Enlarges(h, g) && Takes(g, h', b, n)
    ensures Serves(h, h', b, n)
  {
    forall u | b <= u < b + n ensures u in h'.own && h'.own[u] == b && (u in h.own ==> h.own[u] !in h.live) {
      assert u in g.own;
    }
    forall u | u in h'.own && h'.own[u] in h'.live && h'.own[u] != b ensures u in h.own && h.own[u] == h'.own[u] {
      assert u in g.own;
      assert g.own[u] in g.live;
    }
  }

  // ---------------------------------------------------------------------
  // The first-fit search around the list.

  // Going round from f, y was passed before p is reached.
  ghost predicate Passed(f: int, p: int, y: int) {
    if p > f then f < y < p else y > f || y < p
  }

  ghost predicate NoneFits(h: Heap, f: int, p: int, n: int) {
    forall y :: y in h.free && Passed(f, p, y) ==> y in h.size && h.size[y] < n
  }

  lemma NoneFitsFirst(h: Heap, f: int, n: int)
    requires Ok(h, {}) && f in h.free
    ensures NoneFits(h, f, h.ptr[f], n)
  {
    assert LinkOk(h.free, f, h.ptr[f]);
  }

  lemma NoneFitsNext(h: Heap, f: int, p: int, n: int)
    requires Ok(h, {}) && f in h.free && p in h.free && p != f && NoneFits(h, f, p, n) && h.size[p] < n
    ensures NoneFits(h, f, h.ptr[p], n)
    ensures p > f ==> h.ptr[p] <= f || h.ptr[p] > p
    ensures p < f ==> p < h.ptr[p] <= f
  {
    assert LinkOk(h.free, p, h.ptr[p]);
  }
}
