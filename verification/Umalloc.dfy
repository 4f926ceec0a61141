/**
 umalloc.c: malloc, free and morecore over the headers in memory.
 */
module Umalloc {
  import opened FreeList

  ghost predicate Whole(h: Heap) { Ok(h, {}) }
  ghost predicate Sane(h: Heap) { forall x :: x == h ==> Whole(x) }

  ghost predicate FreesH(h: Heap, h': Heap, b: int) { forall x :: x == h' ==> Frees(h, x, b) }

  // One step of free's search that neither stops nor breaks gets nearer to the place of b.
  lemma Hop(h: Heap, p: int, b: int)
    requires Whole(h) && p in h.free && b in h.live
    ensures p in h.ptr && h.ptr[p] in h.free && p != b && BASE <= p && BASE < b
    ensures p < h.ptr[p] || h.ptr[p] == BASE
    ensures h.ptr[p] != b
  {
    assert LinkOk(h.free, p, h.ptr[p]);
    assert IsBlock(h, b);
  }

  lemma Below(h: Heap, x: int, top: int)
    requires Whole(h) && x in h.free && BASE < top && forall u :: u in h.own ==> u < top
    ensures x < top
  {
    if x != BASE { Covered(h, x, x); }
  }

  lemma FreedSane(h: Heap, p: int, b: int)
    requires Whole(h) && b in h.live && p in h.free && p in h.ptr && p < b && (b < h.ptr[p] || h.ptr[p] <= p)
    ensures p in h.size && b in h.size && h.ptr[p] in h.ptr && h.ptr[p] in h.size
    ensures b + h.size[b] == h.ptr[p] ==> p < b < h.ptr[p]
    ensures Sane(Freed(h, p, b)) && FreesH(h, Freed(h, p, b), b) && p in Freed(h, p, b).free
  {
    NextHeader(h, p);
    FreedOk(h, p, b);
    assert Whole(Freed(h, p, b)) && Frees(h, Freed(h, p, b), b);
  }

  // What free leaves in the headers.
  lemma FreedHeaders(h: Heap, p: int, b: int)
    requires p in h.ptr && h.ptr[p] in h.ptr && p in h.size && b in h.size && h.ptr[p] in h.size
    requires p < b && (b + h.size[b] == h.ptr[p] ==> b < h.ptr[p])
    ensures var q := h.ptr[p];
      var m := h.ptr[b := if b + h.size[b] == q then h.ptr[q] else q];
      Freed(h, p, b).ptr == m[p := if p + h.size[p] == b then m[b] else b]
    ensures var q := h.ptr[p];
      var m := if b + h.size[b] == q then h.size[b := h.size[b] + h.size[q]] else h.size;
      Freed(h, p, b).size == if p + h.size[p] == b then m[p := m[p] + m[b]] else m
  {
  }

  const MIN_CORE: int := 4096
  const INT_MAX: int := 0x7fff_ffff
  const U32: int := 0x1_0000_0000
  const MAX_UNITS: int := U32 / 16 + 1     // units for the largest request

  // units for a request of nbytes, with its header
  function Nunits(nbytes: int): (n: int)
    requires 0 <= nbytes
    ensures n >= 1 && 16 * (n - 1) >= nbytes && 16 * (n - 2) < nbytes
  {
    (nbytes + 15) / 16 + 1
  }

  function CoreUnits(nu: int): (n: int)
    ensures n >= nu && n >= MIN_CORE && (n == nu || n == MIN_CORE)
  {
    if nu < MIN_CORE then MIN_CORE else nu
  }

  // What sbrk gets when morecore asks for the bytes of nu units: its parameter is an int.
  function Asked(nu: int): (n: int) {
    var x := 16 * CoreUnits(nu) % U32;
    if x > INT_MAX then x - U32 else x
  }

  // Only bytes that fit an int are asked for; otherwise 16 or fewer are, or some given back.
  lemma AskedExactly(nu: int)
    requires 0 < nu <= MAX_UNITS
    ensures Asked(nu) == 16 * CoreUnits(nu) <==> 16 * CoreUnits(nu) <= INT_MAX
    ensures 16 * CoreUnits(nu) > INT_MAX ==> Asked(nu) <= 16
  {
  }

  // sbrk fails: it cannot move the break that far up.
  predicate Refused(brk: int, limit: int, nu: int) { Asked(nu) > 0 && brk + Asked(nu) / 16 > limit }

  ghost predicate EnlargesH(h: Heap, h': Heap) { forall x :: x == h' ==> Enlarges(h, x) }
  ghost predicate ServesH(h: Heap, h': Heap, b: int, n: int) { forall x :: x == h' ==> Serves(h, x, b, n) }

  // Some free block has n units or more.
  ghost predicate Fits(h: Heap, n: int) { exists z :: z in h.free && z in h.size && h.size[z] >= n }

  ghost predicate Searched(h: Heap, f: int, p: int, n: int) { forall x :: x == h ==> NoneFits(x, f, p, n) }
  ghost predicate Room(h: Heap, n: int) { forall x :: x == h ==> Fits(x, n) }

  // Going round from f, the first block that has n units is the one behind prev, and r is what
  // follows the header of its last n units.
  ghost predicate FirstFits(h: Heap, f: int, prev: int, n: int, r: int) {
    && prev in h.free && prev in h.ptr && h.ptr[prev] in h.free && h.ptr[prev] in h.size
    && NoneFits(h, f, h.ptr[prev], n) && h.size[h.ptr[prev]] >= n && r == h.ptr[prev] + h.size[h.ptr[prev]] - n + 1
  }

  ghost predicate FirstFitsH(h: Heap, f: int, prev: int, n: int, r: int) {
    forall x :: x == h ==> FirstFits(x, f, prev, n, r)
  }

  // The units k got from sbrk are k0, and n more from address b if core.
  ghost predicate Got(k0: set<int>, k: set<int>, b: int, n: int, core: bool) {
    k == if core then k0 + Units(b, n) else k0
  }

  ghost predicate Obtained(k0: set<int>, k: set<int>, b: int, n: int, core: bool) {
    forall x :: x == k ==> Got(k0, x, b, n, core)
  }

  // core is h with n new units at b, so far a live block; kept folded
  ghost predicate CoreIs(h: Heap, core: Heap, b: int, n: int) { core == AddCore(h, b, n) }
  ghost predicate Core(h: Heap, core: Heap, b: int, n: int) { forall x :: x == core ==> CoreIs(h, x, b, n) }

  lemma MakeCore(h: Heap, b: int, n: int) returns (core: Heap)
    requires Sane(h) && n > 0 && b > BASE && forall u :: u in h.own ==> u < b
    ensures Core(h, core, b, n) && Sane(core)
    ensures core == Heap(h.ptr, h.size[b := n], h.free, h.live + {b}, core.own)
      && forall u :: u in core.own ==> u < b + n
  {
    assert Whole(h);
    core := AddCore(h, b, n);
    CoreOk(h, b, n);
    assert Whole(core);
    assert CoreIs(h, core, b, n);
  }

  lemma CoreFreed(h: Heap, core: Heap, h': Heap, b: int, n: int)
    requires Sane(h) && n > 0 && b > BASE && (forall u :: u in h.own ==> u < b) && Core(h, core, b, n)
      && FreesH(core, h', b)
    ensures EnlargesH(h, h') && Fits(h', n) && h'.own.Keys == h.own.Keys + Units(b, n)
  {
    assert Whole(h) && CoreIs(h, core, b, n);
    assert Frees(core, h', b);
    CoreEnlarges(h, h', b, n);
    assert Enlarges(h, h');
    var z := h'.own[b];
    assert z in h'.free && z in h'.size && h'.size[z] >= n;
  }

  lemma TookWhole(h0: Heap, h: Heap, prev: int, p: int)
    requires EnlargesH(h0, h) && Whole(h) && prev in h.free && prev in h.ptr && h.ptr[prev] == p && p in h.free
      && p in h.size && h.size[p] > 0
    ensures p in h.ptr && Sane(TakeWhole(h, prev, p)) && ServesH(h0, TakeWhole(h, prev, p), p, h.size[p]) && prev != p
  {
    WholeOk(h, prev, p);
    WholeCircular(h, prev, p);
    assert Enlarges(h0, h);
    EnlargesServes(h0, h, TakeWhole(h, prev, p), p, h.size[p]);
    assert Whole(TakeWhole(h, prev, p)) && Serves(h0, TakeWhole(h, prev, p), p, h.size[p]);
  }

  lemma TookTail(h0: Heap, h: Heap, p: int, n: int)
    requires EnlargesH(h0, h) && Whole(h) && p in h.free && p in h.size && 0 < n < h.size[p]
    ensures var h' := TakeTail(h, p, n); Sane(h') && ServesH(h0, h', p + h.size[p] - n, n)
  {
    TailOk(h, p, n);
    assert Enlarges(h0, h);
    EnlargesServes(h0, h, TakeTail(h, p, n), p + h.size[p] - n, n);
    assert Whole(TakeTail(h, p, n)) && Serves(h0, TakeTail(h, p, n), p + h.size[p] - n, n);
  }

  lemma Enlarged(a: Heap, b: Heap, c: Heap)
    requires EnlargesH(a, b) && EnlargesH(b, c)
    ensures EnlargesH(a, c)
  {
    assert Enlarges(a, b) && Enlarges(b, c);
    assert Enlarges(a, c);
  }

  // Back at f without a fit: nothing on the list fits.
  lemma NothingFits(h: Heap, f: int, n: int)
    requires Whole(h) && f in h.free && f in h.size && h.size[f] < n && NoneFits(h, f, f, n)
    ensures !Fits(h, n)
  {
    forall z | z in h.free ensures z in h.size && h.size[z] < n {
      assert z != f ==> Passed(f, f, z);
    }
  }

  class Allocator {
    var ptr: map<int, int>
    var size: map<int, int>
    var freep: int           // 0 before the first malloc
    var brk: int             // end of the data segment
    const limit: int         // how far sbrk can move it

    ghost var free: set<int>
    ghost var live: set<int>
    ghost var own: map<int, int>

    ghost function Now(): (h: Heap)
      reads this`ptr, this`size, this`free, this`live, this`own
    {
      Heap(ptr, size, free, live, own)
    }

    ghost predicate Valid()
      reads this
    {
      && BASE < brk && (forall u :: u in own ==> u < brk)
      && (freep == 0 ==> free == {} && live == {} && own == map[])
      && (freep != 0 ==> freep in free && Sane(Now()))
    }

    constructor (brk: int, limit: int)
      requires BASE < brk
      ensures Valid() && freep == 0 && own == map[] && this.brk == brk && this.limit == limit
    {
      ptr, size, freep := map[], map[], 0;
      this.brk, this.limit := brk, limit;
      free, live, own := {}, {}, map[];
    }

    // The search of free: the header after which b belongs.
    method Place(b: int) returns (p: int)
      requires Valid() && b in live
      ensures p in free && p in ptr && BASE <= p < b && (b < ptr[p] || ptr[p] <= p)
      ensures forall z :: z in free ==> z <= p || z > b
    {
      p := freep;
      Step(p, b);
      while !(b > p && b < ptr[p])
        invariant p in free && p in ptr
        decreases if p > b then 1 else 0, brk - p
      {
        Step(p, b);
        if p >= ptr[p] && (b > p || b < ptr[p]) {
          break;
        }
        p := ptr[p];
        Step(p, b);
      }
      Step(p, b);
      assert LinkOk(free, p, ptr[p]) by { assert Whole(Now()); }
    }

    lemma Step(p: int, b: int)
      requires Valid() && p in free && b in live
      ensures p in ptr && ptr[p] in free && p != b && BASE <= p < brk && BASE < b && ptr[p] != b
      ensures p < ptr[p] || ptr[p] == BASE
    {
      assert Whole(Now());
      Hop(Now(), p, b);
      Below(Now(), p, brk);
    }

    lemma FreeStep(p: int, b: int)
      requires Valid() && b in live && p in free && p in ptr && p < b && (b < ptr[p] || ptr[p] <= p)
      ensures p in size && b in size && ptr[p] in ptr && ptr[p] in size
      ensures b + size[b] == ptr[p] ==> p < b < ptr[p]
      ensures var h' := Freed(Now(), p, b); Sane(h') && FreesH(Now(), h', b) && p in h'.free && h'.own.Keys == own.Keys
    {
      assert Whole(Now());
      FreedSane(Now(), p, b);
      assert Frees(Now(), Freed(Now(), p, b), b);
    }

    // free; b is the block's header.
    method Free(b: int)
      requires Valid() && b in live
      modifies this`ptr, this`size, this`freep, this`free, this`live, this`own
      ensures Valid() && freep != 0 && FreesH(old(Now()), Now(), b)
      ensures freep in old(free) && freep < b && forall z :: z in old(free) ==> z <= freep || z > b
    {
      ghost var h := Now();
      var p := Place(b);
      FreeStep(p, b);
      FreedHeaders(h, p, b);
      ghost var h' := Freed(h, p, b);
      if b + size[b] == ptr[p] {
        size := size[b := size[b] + size[ptr[p]]];
        ptr := ptr[b := ptr[ptr[p]]];
      } else {
        ptr := ptr[b := ptr[p]];
      }
      if p + size[p] == b {
        size := size[p := size[p] + size[b]];
        ptr := ptr[p := ptr[b]];
      } else {
        ptr := ptr[p := b];
      }
      assert ptr == h'.ptr;
      assert size == h'.size;
      freep := p;
      free, live, own := h'.free, h'.live, h'.own;
      assert forall u :: u in own ==> u in h.own.Keys;
    }

    // morecore: 0 if sbrk fails. wild if it does not and yet has not given the units, because
    // their bytes do not fit its int: morecore then makes a block of memory that is not its own,
    // and the method ends before that.
    method MoreCore(nu: int) returns (r: int, wild: bool)
      requires Valid() && freep != 0 && 0 < nu <= MAX_UNITS
      modifies this`ptr, this`size, this`freep, this`brk, this`free, this`live, this`own
      ensures Valid() && freep != 0
      ensures r == 0 ==> Now() == old(Now()) && freep == old(freep) && brk == old(brk) && brk !in own
      ensures wild <==> 16 * CoreUnits(nu) > INT_MAX && !Refused(old(brk), limit, nu)
      ensures r == 0 <==> wild || Refused(old(brk), limit, nu)
      ensures r != 0 ==> r == freep && EnlargesH(old(Now()), Now()) && Fits(Now(), nu)
      ensures r != 0 ==> own.Keys == old(own).Keys + Units(old(brk), CoreUnits(nu)) && brk == old(brk) + CoreUnits(nu)
    {
      var n := CoreUnits(nu);
      AskedExactly(nu);
      assert brk !in own by { assert Whole(Now()); }
      if Refused(brk, limit, nu) {
        return 0, false;
      }
      if Asked(nu) != 16 * n {
        return 0, true;
      }
      wild := false;
      ghost var h := Now();
      var hp := brk;
      ghost var core := MakeCore(h, hp, n);
      brk := brk + n;
      size := size[hp := n];
      live := live + {hp};
      own := core.own;
      assert Now() == core;
      Free(hp);
      CoreFreed(h, core, Now(), hp, n);
      r := freep;
    }

    // The list before the first malloc: base alone.
    method Init()
      requires Valid() && freep == 0
      modifies this`ptr, this`size, this`freep, this`free
      ensures Valid() && freep == BASE && EnlargesH(old(Now()), Now())
      ensures live == {} && own == map[]
    {
      ghost var h := Now();
      ptr, size := ptr[BASE := BASE], size[BASE := 0];
      freep := BASE;
      free := {BASE};
      assert LinkOk(free, BASE, BASE);
      assert Whole(Now());
      assert Enlarges(h, Now());
    }

    // Hands out block p, which fits, or its tail.
    method Take(prev: int, p: int, n: int, ghost h0: Heap) returns (r: int)
      requires Valid() && freep != 0 && prev in free && prev in ptr && ptr[prev] == p && p in free && p in size
        && 0 < n <= size[p]
      requires EnlargesH(h0, Now())
      modifies this`ptr, this`size, this`freep, this`free, this`live, this`own
      ensures Valid() && freep != 0 && ServesH(h0, Now(), r - 1, n) && own.Keys == old(own).Keys && r > BASE
      ensures freep == prev && r == p + old(size)[p] - n + 1
    {
      ghost var h := Now();
      InDomain(prev, p);
      if size[p] == n {
        assert p in ptr && Sane(TakeWhole(h, prev, p)) && ServesH(h0, TakeWhole(h, prev, p), p, n) && prev != p by {
          assert Whole(h);
          TookWhole(h0, h, prev, p);
        }
        ptr := ptr[prev := ptr[p]];
        free, live := free - {p}, live + {p};
        assert Now() == TakeWhole(h, prev, p);
        r := p;
      } else {
        assert var h' := TakeTail(h, p, n); Sane(h') && ServesH(h0, h', p + size[p] - n, n) by {
          assert Whole(h);
          TookTail(h0, h, p, n);
        }
        r := p + size[p] - n;
        size := size[p := size[p] - n];
        size := size[r := n];
        live, own := live + {r}, TakeTail(h, p, n).own;
        assert Now() == TakeTail(h, p, n);
      }
      freep := prev;
      r := r + 1;
    }

    lemma InDomain(prev: int, p: int)
      requires Valid() && freep != 0 && prev in free && p in free
      ensures p in ptr && p in size && prev in ptr && ptr[p] in free && BASE <= prev && BASE <= p < brk
    {
      assert Whole(Now());
      NextHeader(Now(), p);
      Below(Now(), p, brk);
    }

    lemma Around(p: int, n: int)
      requires Valid() && freep != 0 && p in free && p in size && p in ptr && size[p] < n
        && Searched(Now(), freep, p, n)
      ensures p == freep ==> !Fits(Now(), n) && !Room(Now(), n)
      ensures p != freep ==> Searched(Now(), freep, ptr[p], n)
      ensures p > freep ==> ptr[p] <= freep || ptr[p] > p
      ensures p < freep ==> p < ptr[p] <= freep
    {
      assert Whole(Now()) && NoneFits(Now(), freep, p, n);
      if p == freep {
        NothingFits(Now(), p, n);
      } else {
        NoneFitsNext(Now(), freep, p, n);
        assert NoneFits(Now(), freep, ptr[p], n);
      }
    }

    lemma FirstHop(n: int)
      requires Valid() && freep != 0 && freep in ptr
      ensures Searched(Now(), freep, ptr[freep], n)
    {
      assert Whole(Now());
      NoneFitsFirst(Now(), freep, n);
      assert NoneFits(Now(), freep, ptr[freep], n);
    }

    // Nothing fits: the search starts again from where morecore has put the new units.
    method Refill(n: int, ghost h0: Heap) returns (p: int, wild: bool)
      requires Valid() && freep != 0 && 0 < n <= MAX_UNITS && EnlargesH(h0, Now())
      modifies this`ptr, this`size, this`freep, this`brk, this`free, this`live, this`own
      ensures Valid() && freep != 0 && EnlargesH(h0, Now())
      ensures p == 0 ==> Now() == old(Now()) && brk == old(brk)
      ensures wild <==> 16 * CoreUnits(n) > INT_MAX && !Refused(old(brk), limit, n)
      ensures p == 0 <==> wild || Refused(old(brk), limit, n)
      ensures p != 0 ==> p == freep && p in ptr && ptr[p] in free && Searched(Now(), p, ptr[p], n) && Room(Now(), n)
      ensures p != 0 ==> Obtained(old(own).Keys, own.Keys, old(brk), CoreUnits(n), true)
    {
      ghost var h := Now();
      p, wild := MoreCore(n);
      if p != 0 {
        Enlarged(h0, h, Now());
        InDomain(p, p);
        FirstHop(n);
        assert Got(h.own.Keys, own.Keys, old(brk), CoreUnits(n), true);
      }
    }

    // malloc's search, once there is a list; core says whether it called morecore.
    // The block comes from the list of seen, where the search began at f.
    method FirstFit(n: int, ghost h0: Heap)
        returns (r: int, wild: bool, ghost core: bool, ghost seen: Heap, ghost f: int)
      requires Valid() && freep != 0 && 0 < n <= MAX_UNITS && EnlargesH(h0, Now())
      modifies this`ptr, this`size, this`freep, this`brk, this`free, this`live, this`own
      ensures Valid() && freep != 0
      ensures r != 0 ==> ServesH(h0, Now(), r - 1, n) && FirstFitsH(seen, f, freep, n, r)
      ensures if core then !Fits(old(Now()), n) else seen == old(Now()) && f == old(freep)
      ensures EnlargesH(h0, seen) && seen.own.Keys == own.Keys
      ensures Obtained(old(own).Keys, own.Keys, old(brk), CoreUnits(n), core)
      ensures r == 0 ==> !core && EnlargesH(h0, Now()) && !Fits(Now(), n) && (wild || Refused(brk, limit, n))
      ensures wild ==> r == 0 && 16 * CoreUnits(n) > INT_MAX && !Refused(brk, limit, n)
      ensures core ==> 16 * CoreUnits(n) <= INT_MAX
    {
      ghost var brk0, keys := brk, own.Keys;
      core, wild, seen, f := false, false, Now(), freep;
      assert Got(keys, own.Keys, brk0, CoreUnits(n), core);
      var prev := freep;
      InDomain(prev, prev);
      FirstHop(n);
      var p := ptr[prev];
      while true
        invariant Valid() && freep != 0 && prev in free && prev in ptr && p in free && ptr[prev] == p
        invariant seen == Now() && f == freep
        invariant if core then !Fits(old(Now()), n) else seen == old(Now()) && f == old(freep)
        invariant Searched(Now(), freep, p, n) && (core ==> Room(Now(), n))
        invariant EnlargesH(h0, Now()) && !wild && (core ==> 16 * CoreUnits(n) <= INT_MAX)
        invariant Obtained(keys, own.Keys, brk0, CoreUnits(n), core) && (!core ==> own.Keys == keys && brk == brk0)
        decreases if core then 0 else 1, if p > freep then 1 else 0, brk - p
      {
        InDomain(prev, p);
        if size[p] >= n {
          r := Take(prev, p, n, h0);
          assert FirstFits(seen, f, freep, n, r) by { assert NoneFits(seen, f, p, n); }
          return;
        }
        Around(p, n);
        if p == freep {
          p, wild := Refill(n, h0);
          if p == 0 {
            return 0, wild, core, seen, f;
          }
          core, seen, f := true, Now(), freep;
        }
        prev, p := p, ptr[p];
      }
    }

    // A block for the request, or 0 when no free block fits and sbrk refuses; wild if none fits, the
    // bytes to get for it do not fit sbrk's int, and sbrk does not refuse what it is asked for.
    // It is the first that fits, from where the last call stopped, and of its end.
    method Malloc(nbytes: int)
        returns (r: int, wild: bool, ghost core: bool, ghost seen: Heap, ghost f: int)
      requires Valid() && 0 <= nbytes < U32
      modifies this`ptr, this`size, this`freep, this`brk, this`free, this`live, this`own
      ensures Valid() && freep != 0
      ensures r != 0 ==>
        ServesH(old(Now()), Now(), r - 1, Nunits(nbytes)) && FirstFitsH(seen, f, freep, Nunits(nbytes), r)
      ensures if core then !Fits(old(Now()), Nunits(nbytes))
        else old(freep) != 0 ==> seen == old(Now()) && f == old(freep)
      ensures EnlargesH(old(Now()), seen) && seen.own.Keys == own.Keys
      ensures Obtained(old(own).Keys, own.Keys, old(brk), CoreUnits(Nunits(nbytes)), core)
      ensures r == 0 ==> !core && EnlargesH(old(Now()), Now()) && !Fits(Now(), Nunits(nbytes))
      ensures r == 0 ==> wild || Refused(brk, limit, Nunits(nbytes))
      ensures wild ==> r == 0 && 16 * CoreUnits(Nunits(nbytes)) > INT_MAX && !Refused(brk, limit, Nunits(nbytes))
      ensures core ==> 16 * CoreUnits(Nunits(nbytes)) <= INT_MAX
    {
      ghost var h0 := Now();
      var n := Nunits(nbytes);
      if freep == 0 {
        Init();
      } else {
        assert EnlargesH(h0, h0) by { assert Whole(h0); EnlargesSelf(h0); }
      }
      r, wild, core, seen, f := FirstFit(n, h0);
    }
  }

  lemma OwnsServed(h: Heap, h': Heap, b: int, n: int)
    requires n > 0
    ensures ServesH(h, h', b, n) ==> b in h'.own
  {
    if ServesH(h, h', b, n) { assert Serves(h, h', b, n); }
  }

  // The failing call: the first malloc of a program, for half of the largest request. sbrk is asked
  // for a negative number of bytes and does not refuse.
  method LargeMalloc(brk: int, limit: int) returns (a: Allocator, r: int, wild: bool)
    requires BASE < brk
    ensures wild && a.own == map[]
  {
    a := new Allocator(brk, limit);
    ghost var h, n := a.Now(), Nunits(INT_MAX);
    ghost var core, seen, f;
    r, wild, core, seen, f := a.Malloc(INT_MAX);
    OwnsServed(h, a.Now(), r - 1, n);
    assert Got(h.own.Keys, a.own.Keys, brk, CoreUnits(n), core);
  }
}
