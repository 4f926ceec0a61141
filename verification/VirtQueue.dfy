/**
 The split virtqueue of virtio_disk.c (section 2.6 of VIRTIO 1.1) with the three-descriptor
 requests of a block device (section 5.2): who has which descriptor, and where in the two
 rings each request is.
 */
module VirtQueue {

  const NUM: int := 8
  const U16: int := 0x1_0000
  const NONE: int := -1

  datatype Addr = Null | OpOf(i: int) | DataOf(b: int) | StatusOf(i: int)
  datatype Desc = Desc(addr: Addr, len: int, more: bool, write: bool, next: int)   // more: VRING_DESC_F_NEXT
  datatype Op = Op(write: bool, sector: int)
  datatype Info = Info(b: int, status: int)

  // A request: its buffer, its sector, its second and third descriptor. The first names it.
  datatype Req = Req(b: int, sector: int, write: bool, d1: int, d2: int)

  // Where a request is: in avail slot k, with the device, in used slot k, or seen by the driver.
  datatype Phase = Queued(k: int) | InFlight | Done(k: int) | Seen

  // Positions in the rings are counted without wrapping: the driver has published up to avail
  // and looked at the used ring up to seen; the device has fetched up to fetched, used up to used.
  datatype Ghost = Ghost(reqs: map<int, Req>, phase: map<int, Phase>, owner: map<int, int>,
                         avail: int, fetched: int, used: int, seen: int, flying: set<int>, idle: set<int>,
                           over: set<int>)

  // ---------------------------------------------------------------------
  // Descriptors.

  ghost predicate Has(r: Req, h: int, d: int) { d == h || d == r.d1 || d == r.d2 }

  // Every descriptor is free or in exactly one request; every request has three.
  ghost predicate Parted(free: seq<bool>, g: Ghost) {
    && |free| == NUM
    && (forall d :: 0 <= d < NUM ==> (free[d] <==> d in g.idle) && (free[d] <==> d !in g.owner))
    && (forall d :: d in g.owner ==> 0 <= d < NUM && g.owner[d] in g.reqs && Has(g.reqs[g.owner[d]], g.owner[d], d))
    && (forall h, d :: h in g.reqs && Has(g.reqs[h], h, d) ==> d in g.owner && g.owner[d] == h)
    && (forall h :: h in g.reqs ==> h != g.reqs[h].d1 && h != g.reqs[h].d2 && g.reqs[h].d1 != g.reqs[h].d2)
    && (forall d :: d in g.idle ==> 0 <= d < NUM)
  }

  ghost predicate DescOk(free: seq<bool>, g: Ghost) {
    Parted(free, g) && |g.idle| + 3 * |g.reqs| == NUM
  }

  // What the device finds when it follows the chain at h.
  ghost predicate Chain(desc: seq<Desc>, ops: seq<Op>, r: Req, h: int) {
    && |desc| == NUM && |ops| == NUM && 0 <= h < NUM && 0 <= r.d1 < NUM && 0 <= r.d2 < NUM
    && desc[h] == Desc(OpOf(h), 16, true, false, r.d1) && ops[h] == Op(r.write, r.sector)
    && desc[r.d1] == Desc(DataOf(r.b), 1024, true, !r.write, r.d2)
    && desc[r.d2] == Desc(StatusOf(h), 1, false, true, 0)
  }

  ghost predicate Chains(desc: seq<Desc>, ops: seq<Op>, g: Ghost) {
    forall h :: h in g.reqs ==> Chain(desc, ops, g.reqs[h], h)
  }

  // ---------------------------------------------------------------------
  // Rings.

  ghost predicate PhaseOk(ring: seq<int>, uring: seq<int>, g: Ghost, h: int)
    requires |ring| == |uring| == NUM && h in g.phase
  {
    match g.phase[h]
    case Queued(k) => g.fetched <= k < g.avail && ring[k % NUM] == h
    case Done(k) => g.seen <= k < g.used && uring[k % NUM] == h
    case InFlight => h in g.flying
    case Seen => h in g.over
  }

  ghost predicate RingOk(ring: seq<int>, uring: seq<int>, g: Ghost) {
    && |ring| == NUM && |uring| == NUM && g.phase.Keys == g.reqs.Keys
    && 0 <= g.seen <= g.used <= g.fetched <= g.avail
    && g.fetched - g.used == |g.flying| && g.avail - g.seen + |g.over| == |g.reqs|
    && (forall h :: h in g.phase ==> PhaseOk(ring, uring, g, h))
    && (forall k :: g.fetched <= k < g.avail ==> InSlot(ring, g, k, Queued(k)))
    && (forall k :: g.seen <= k < g.used ==> InSlot(uring, g, k, Done(k)))
    && (forall h :: h in g.flying ==> h in g.phase && g.phase[h] == InFlight)
    && (forall h :: h in g.over ==> h in g.phase && g.phase[h] == Seen)
  }

  ghost predicate InSlot(ring: seq<int>, g: Ghost, k: int, ph: Phase)
    requires |ring| == NUM
  {
    ring[k % NUM] in g.phase && g.phase[ring[k % NUM]] == ph
  }

  // ---------------------------------------------------------------------
  // Buffers.

  // A buffer belongs to one request, is marked while the device may still use it, and its
  // status is 0 once the device is done and 0xff until then.
  ghost predicate BufOk(info: seq<Info>, busy: set<int>, g: Ghost) {
    && |info| == NUM && g.phase.Keys == g.reqs.Keys
    && (forall h :: h in g.reqs ==>
      0 <= h < NUM && info[h].b == g.reqs[h].b && (g.reqs[h].b in busy <==> g.phase[h] != Seen))
    && (forall h :: h in g.reqs ==> info[h].status == if g.phase[h].Done? || g.phase[h] == Seen then 0 else 0xff)
    && (forall h, j :: h in g.reqs && j in g.reqs && g.reqs[h].b == g.reqs[j].b ==> h == j)
  }

  lemma SameDesc(free: seq<bool>, g: Ghost, g': Ghost)
    requires DescOk(free, g) && g'.reqs == g.reqs && g'.owner == g.owner && g'.idle == g.idle
    ensures DescOk(free, g')
  {
  }

  lemma FewRequests(free: seq<bool>, g: Ghost)
    requires DescOk(free, g)
    ensures |g.reqs| <= 2
  {
  }

  // The 16-bit index of position k, and of the next, and the slot it selects.
  lemma SlotOf(k: int)
    requires 0 <= k
    ensures k % U16 % NUM == k % NUM
    ensures (k % U16 + 1) % U16 == (k + 1) % U16
  {
  }

  // Two positions less than NUM apart use different slots.
  lemma OtherSlot(k: int, n: int)
    requires k < n < k + NUM
    ensures k % NUM != n % NUM
  {
  }

  // ---------------------------------------------------------------------
  // The driver publishes a request.

  ghost function Issue(g: Ghost, h: int, r: Req): (g': Ghost) {
    g.(reqs := g.reqs[h := r], phase := g.phase[h := Queued(g.avail)], owner := g.owner[h := h][r.d1 := h][r.d2 := h],
       avail := g.avail + 1, idle := g.idle - {h, r.d1, r.d2})
  }

  ghost predicate CanIssue(free: seq<bool>, g: Ghost, h: int, r: Req) {
    && |free| == NUM && 0 <= h < NUM && 0 <= r.d1 < NUM && 0 <= r.d2 < NUM && h != r.d1 && h != r.d2 && r.d1 != r.d2
    && free[h] && free[r.d1] && free[r.d2]
  }

  lemma IssueFree(free: seq<bool>, g: Ghost, h: int, r: Req)
    requires Parted(free, g) && CanIssue(free, g, h, r)
    ensures var free', g' := free[h := false][r.d1 := false][r.d2 := false], Issue(g, h, r);
      forall d :: 0 <= d < NUM ==> (free'[d] <==> d in g'.idle) && (free'[d] <==> d !in g'.owner)
  {
  }

  lemma IssueOwner(free: seq<bool>, g: Ghost, h: int, r: Req, d: int)
    requires Parted(free, g) && CanIssue(free, g, h, r) && h !in g.reqs && d in Issue(g, h, r).owner
    ensures var g' := Issue(g, h, r);
      0 <= d < NUM && g'.owner[d] in g'.reqs && Has(g'.reqs[g'.owner[d]], g'.owner[d], d)
  {
    if Has(r, h, d) {
      assert Issue(g, h, r).owner[d] == h;
    } else {
      assert Issue(g, h, r).owner[d] == g.owner[d];
    }
  }

  lemma IssueHas(free: seq<bool>, g: Ghost, h: int, r: Req, j: int, d: int)
    requires Parted(free, g) && CanIssue(free, g, h, r) && h !in g.reqs && j in Issue(g, h, r).reqs
      && Has(Issue(g, h, r).reqs[j], j, d)
    ensures d in Issue(g, h, r).owner && Issue(g, h, r).owner[d] == j
  {
    if j != h {
      OwnerOf(free, g, j, d);
      assert !free[d];
    }
  }

  lemma IssueParted(free: seq<bool>, g: Ghost, h: int, r: Req)
    requires Parted(free, g) && CanIssue(free, g, h, r)
    ensures h !in g.reqs && Parted(free[h := false][r.d1 := false][r.d2 := false], Issue(g, h, r))
  {
    assert h !in g.reqs by { assert h in g.reqs ==> Has(g.reqs[h], h, h); }
    var g' := Issue(g, h, r);
    IssueFree(free, g, h, r);
    forall d | d in g'.owner
      ensures 0 <= d < NUM && g'.owner[d] in g'.reqs && Has(g'.reqs[g'.owner[d]], g'.owner[d], d)
    {
      IssueOwner(free, g, h, r, d);
    }
    forall j, d | j in g'.reqs && Has(g'.reqs[j], j, d)
      ensures d in g'.owner && g'.owner[d] == j
    {
      IssueHas(free, g, h, r, j, d);
    }
  }

  lemma IssueDesc(free: seq<bool>, g: Ghost, h: int, r: Req)
    requires DescOk(free, g) && CanIssue(free, g, h, r)
    ensures h !in g.reqs && DescOk(free[h := false][r.d1 := false][r.d2 := false], Issue(g, h, r))
  {
    IssueParted(free, g, h, r);
    assert h in g.idle && r.d1 in g.idle && r.d2 in g.idle;
    ThreeLess(g.idle, h, r.d1, r.d2);
  }

  lemma IssueRing(ring: seq<int>, uring: seq<int>, g: Ghost, h: int, r: Req)
    requires RingOk(ring, uring, g) && h !in g.reqs && |g.reqs| <= 2
    ensures RingOk(ring[g.avail % NUM := h], uring, Issue(g, h, r))
  {
    var ring', g' := ring[g.avail % NUM := h], Issue(g, h, r);
    forall j | j in g'.phase ensures PhaseOk(ring', uring, g', j) { IssuePhase(ring, uring, g, h, r, j); }
    forall k | g'.fetched <= k < g'.avail
      ensures InSlot(ring', g', k, Queued(k))
    {
      IssueSlot(ring, uring, g, h, r, k);
    }
    forall k | g'.seen <= k < g'.used ensures InSlot(uring, g', k, Done(k)) { assert InSlot(uring, g, k, Done(k)); }
  }

  lemma IssuePhase(ring: seq<int>, uring: seq<int>, g: Ghost, h: int, r: Req, j: int)
    requires RingOk(ring, uring, g) && h !in g.reqs && |g.reqs| <= 2 && j in Issue(g, h, r).phase
    ensures PhaseOk(ring[g.avail % NUM := h], uring, Issue(g, h, r), j)
  {
    if j != h {
      assert PhaseOk(ring, uring, g, j);
      if g.phase[j].Queued? { OtherSlot(g.phase[j].k, g.avail); }
    }
  }

  lemma IssueSlot(ring: seq<int>, uring: seq<int>, g: Ghost, h: int, r: Req, k: int)
    requires RingOk(ring, uring, g) && h !in g.reqs && |g.reqs| <= 2 && g.fetched <= k < g.avail + 1
    ensures InSlot(ring[g.avail % NUM := h], Issue(g, h, r), k, Queued(k))
  {
    if k < g.avail {
      assert InSlot(ring, g, k, Queued(k));
      OtherSlot(k, g.avail);
    }
  }

  lemma IssueBuf(info: seq<Info>, busy: set<int>, g: Ghost, h: int, r: Req)
    requires BufOk(info, busy, g) && h !in g.reqs && 0 <= h < NUM && forall j :: j in g.reqs ==> g.reqs[j].b != r.b
    ensures BufOk(info[h := Info(r.b, 0xff)], busy + {r.b}, Issue(g, h, r))
  {
  }

  // The three descriptors of request j are in use.
  ghost predicate InUse(free: seq<bool>, r: Req, j: int) {
    && |free| == NUM && 0 <= j < NUM && 0 <= r.d1 < NUM && 0 <= r.d2 < NUM
    && !free[j] && !free[r.d1] && !free[r.d2]
  }

  lemma AllInUse(free: seq<bool>, g: Ghost)
    requires Parted(free, g)
    ensures forall j :: j in g.reqs ==> InUse(free, g.reqs[j], j)
  {
    forall j | j in g.reqs ensures InUse(free, g.reqs[j], j) { Parts(free, g, j); }
  }

  lemma IssueChains(desc: seq<Desc>, ops: seq<Op>, desc': seq<Desc>, ops': seq<Op>, free: seq<bool>, g: Ghost, h: int,
      r: Req)
    requires Chains(desc, ops, g) && CanIssue(free, g, h, r) && |desc| == |ops| == |desc'| == NUM
    requires forall j :: j in g.reqs ==> InUse(free, g.reqs[j], j)
    requires forall d :: 0 <= d < NUM && d != h && d != r.d1 && d != r.d2 ==> desc'[d] == desc[d]
    requires ops' == ops[h := Op(r.write, r.sector)] && Chain(desc', ops', r, h)
    ensures Chains(desc', ops', Issue(g, h, r))
  {
    forall j | j in g.reqs ensures Chain(desc', ops', g.reqs[j], j) {
      assert Chain(desc, ops, g.reqs[j], j) && InUse(free, g.reqs[j], j);
    }
  }

  // ---------------------------------------------------------------------
  // The device takes the next request, and completes any it has taken.

  ghost function Fetch(g: Ghost, h: int): (g': Ghost) {
    g.(phase := g.phase[h := InFlight], fetched := g.fetched + 1, flying := g.flying + {h})
  }

  lemma FetchRing(ring: seq<int>, uring: seq<int>, g: Ghost)
    requires RingOk(ring, uring, g) && g.fetched < g.avail && |g.reqs| <= 2
    ensures ring[g.fetched % NUM] in g.reqs && RingOk(ring, uring, Fetch(g, ring[g.fetched % NUM]))
    ensures g.phase[ring[g.fetched % NUM]] == Queued(g.fetched)
  {
    var h := ring[g.fetched % NUM];
    var g' := Fetch(g, h);
    assert InSlot(ring, g, g.fetched, Queued(g.fetched));
    forall j | j in g'.phase ensures PhaseOk(ring, uring, g', j) { assert PhaseOk(ring, uring, g, j); }
    forall k | g'.fetched <= k < g'.avail
      ensures InSlot(ring, g', k, Queued(k))
    {
      assert InSlot(ring, g, k, Queued(k));
    }
    forall k | g'.seen <= k < g'.used ensures InSlot(uring, g', k, Done(k)) { assert InSlot(uring, g, k, Done(k)); }
  }

  lemma FetchBuf(info: seq<Info>, busy: set<int>, g: Ghost, h: int)
    requires BufOk(info, busy, g) && h in g.reqs && g.phase[h].Queued?
    ensures BufOk(info, busy, Fetch(g, h))
  {
  }

  ghost function Complete(g: Ghost, h: int): (g': Ghost) {
    g.(phase := g.phase[h := Done(g.used)], used := g.used + 1, flying := g.flying - {h})
  }

  lemma CompleteRing(ring: seq<int>, uring: seq<int>, g: Ghost, h: int)
    requires RingOk(ring, uring, g) && h in g.flying && |g.reqs| <= 2
    ensures RingOk(ring, uring[g.used % NUM := h], Complete(g, h))
  {
    var uring', g' := uring[g.used % NUM := h], Complete(g, h);
    assert |g'.flying| == |g.flying| - 1;
    forall k | g.seen <= k < g.used ensures uring'[k % NUM] == uring[k % NUM] { OtherSlot(k, g.used); }
    forall j | j in g'.phase ensures PhaseOk(ring, uring', g', j) {
      if j != h { assert PhaseOk(ring, uring, g, j); }
    }
    forall k | g'.fetched <= k < g'.avail
      ensures InSlot(ring, g', k, Queued(k))
    {
      assert InSlot(ring, g, k, Queued(k));
    }
    forall k | g'.seen <= k < g'.used ensures InSlot(uring', g', k, Done(k)) {
      if k < g.used { assert InSlot(uring, g, k, Done(k)); }
    }
  }

  lemma CompleteBuf(info: seq<Info>, busy: set<int>, g: Ghost, h: int)
    requires BufOk(info, busy, g) && h in g.reqs && g.phase[h] == InFlight
    ensures BufOk(info[h := info[h].(status := 0)], busy, Complete(g, h))
  {
  }

  // ---------------------------------------------------------------------
  // The driver's interrupt handler looks at the next used slot, and the issuer frees the chain.

  ghost function See(g: Ghost, h: int): (g': Ghost) {
    g.(phase := g.phase[h := Seen], seen := g.seen + 1, over := g.over + {h})
  }

  lemma SeeRing(ring: seq<int>, uring: seq<int>, g: Ghost)
    requires RingOk(ring, uring, g) && g.seen < g.used && |g.reqs| <= 2
    ensures uring[g.seen % NUM] in g.reqs && RingOk(ring, uring, See(g, uring[g.seen % NUM]))
    ensures g.phase[uring[g.seen % NUM]] == Done(g.seen)
  {
    var h := uring[g.seen % NUM];
    var g' := See(g, h);
    assert InSlot(uring, g, g.seen, Done(g.seen));
    forall j | j in g'.phase ensures PhaseOk(ring, uring, g', j) { assert PhaseOk(ring, uring, g, j); }
    forall k | g'.fetched <= k < g'.avail
      ensures InSlot(ring, g', k, Queued(k))
    {
      assert InSlot(ring, g, k, Queued(k));
    }
    forall k | g'.seen <= k < g'.used ensures InSlot(uring, g', k, Done(k)) { assert InSlot(uring, g, k, Done(k)); }
  }

  lemma SeeBuf(info: seq<Info>, busy: set<int>, g: Ghost, h: int)
    requires BufOk(info, busy, g) && h in g.reqs && g.phase[h].Done?
    ensures BufOk(info, busy - {g.reqs[h].b}, See(g, h)) && info[h].b == g.reqs[h].b && info[h].status == 0
  {
  }

  ghost function Retire(g: Ghost, h: int): (g': Ghost)
    requires h in g.reqs
  {
    var r := g.reqs[h];
    g.(reqs := g.reqs - {h}, phase := g.phase - {h}, owner := g.owner - {h, r.d1, r.d2},
       idle := g.idle + {h, r.d1, r.d2}, over := g.over - {h})
  }

  lemma RetireRing(ring: seq<int>, uring: seq<int>, g: Ghost, h: int)
    requires RingOk(ring, uring, g) && h in g.reqs && g.phase[h] == Seen
    ensures RingOk(ring, uring, Retire(g, h))
  {
    var g' := Retire(g, h);
    assert PhaseOk(ring, uring, g, h);
    forall j | j in g'.phase ensures PhaseOk(ring, uring, g', j) { assert PhaseOk(ring, uring, g, j); }
    forall k | g'.fetched <= k < g'.avail
      ensures InSlot(ring, g', k, Queued(k))
    {
      assert InSlot(ring, g, k, Queued(k));
    }
    forall k | g'.seen <= k < g'.used ensures InSlot(uring, g', k, Done(k)) { assert InSlot(uring, g, k, Done(k)); }
  }

  lemma Parts(free: seq<bool>, g: Ghost, h: int)
    requires Parted(free, g) && h in g.reqs
    ensures h in g.owner && g.reqs[h].d1 in g.owner && g.reqs[h].d2 in g.owner
    ensures 0 <= h < NUM && 0 <= g.reqs[h].d1 < NUM && 0 <= g.reqs[h].d2 < NUM
    ensures !free[h] && !free[g.reqs[h].d1] && !free[g.reqs[h].d2]
    ensures h != g.reqs[h].d1 && h != g.reqs[h].d2 && g.reqs[h].d1 != g.reqs[h].d2
  {
    var r := g.reqs[h];
    assert Has(r, h, h) && Has(r, h, r.d1) && Has(r, h, r.d2);
  }

  lemma OwnerOf(free: seq<bool>, g: Ghost, h: int, d: int)
    requires Parted(free, g) && h in g.reqs && Has(g.reqs[h], h, d)
    ensures d in g.owner && g.owner[d] == h
  {
  }

  // The parts of another request stay its own.
  lemma OtherParts(free: seq<bool>, g: Ghost, h: int, j: int, d: int)
    requires Parted(free, g) && h in g.reqs && j in g.reqs && j != h && Has(g.reqs[j], j, d)
    ensures d in g.owner && g.owner[d] == j && !Has(g.reqs[h], h, d)
  {
    OwnerOf(free, g, j, d);
    if Has(g.reqs[h], h, d) {
      OwnerOf(free, g, h, d);
      assert false;
    }
  }

  lemma RetireParted(free: seq<bool>, g: Ghost, h: int, d1: int, d2: int)
    requires Parted(free, g) && h in g.reqs && d1 == g.reqs[h].d1 && d2 == g.reqs[h].d2
    requires 0 <= h < NUM && 0 <= d1 < NUM && 0 <= d2 < NUM
    ensures Parted(free[h := true][d1 := true][d2 := true], Retire(g, h))
  {
    var g' := Retire(g, h);
    RetireFree(free, g, h, d1, d2);
    forall j, d | j in g'.reqs && Has(g'.reqs[j], j, d)
      ensures d in g'.owner && g'.owner[d] == j
    {
      OtherParts(free, g, h, j, d);
    }
    forall d | d in g'.owner
      ensures 0 <= d < NUM && g'.owner[d] in g'.reqs && Has(g'.reqs[g'.owner[d]], g'.owner[d], d)
    {
      RetireOwner(free, g, h, d);
    }
  }

  lemma RetireOwner(free: seq<bool>, g: Ghost, h: int, d: int)
    requires Parted(free, g) && h in g.reqs && d in Retire(g, h).owner
    ensures var g' := Retire(g, h); 0 <= d < NUM && g'.owner[d] in g'.reqs && Has(g'.reqs[g'.owner[d]], g'.owner[d], d)
  {
    assert g.owner[d] in g.reqs && Has(g.reqs[g.owner[d]], g.owner[d], d);
  }

  lemma RetireFree(free: seq<bool>, g: Ghost, h: int, d1: int, d2: int)
    requires Parted(free, g) && h in g.reqs && d1 == g.reqs[h].d1 && d2 == g.reqs[h].d2
    requires 0 <= h < NUM && 0 <= d1 < NUM && 0 <= d2 < NUM
    ensures var free', g' := free[h := true][d1 := true][d2 := true], Retire(g, h);
      forall d :: 0 <= d < NUM ==> (free'[d] <==> d in g'.idle) && (free'[d] <==> d !in g'.owner)
  {
  }

  lemma RetireDesc(free: seq<bool>, g: Ghost, h: int, d1: int, d2: int)
    requires DescOk(free, g) && h in g.reqs && d1 == g.reqs[h].d1 && d2 == g.reqs[h].d2
    requires 0 <= h < NUM && 0 <= d1 < NUM && 0 <= d2 < NUM
    ensures DescOk(free[h := true][d1 := true][d2 := true], Retire(g, h))
  {
    RetireParted(free, g, h, d1, d2);
    RetireIdle(free, g, h, d1, d2);
    ThreeMore(g.idle, h, d1, d2);
  }

  lemma RetireIdle(free: seq<bool>, g: Ghost, h: int, d1: int, d2: int)
    requires Parted(free, g) && h in g.reqs && d1 == g.reqs[h].d1 && d2 == g.reqs[h].d2
    ensures h !in g.idle && d1 !in g.idle && d2 !in g.idle && h != d1 && h != d2 && d1 != d2
      && |Retire(g, h).reqs| == |g.reqs| - 1
  {
    Parts(free, g, h);
    assert (g.reqs - {h}).Keys == g.reqs.Keys - {h};
    assert |g.reqs.Keys| == |g.reqs| && |(g.reqs - {h}).Keys| == |g.reqs - {h}|;
  }

  lemma ThreeLess(s: set<int>, a: int, b: int, c: int)
    requires a in s && b in s && c in s && a != b && a != c && b != c
    ensures |s - {a, b, c}| == |s| - 3
  {
    assert s - {a, b, c} == s - {a} - {b} - {c};
  }

  lemma ThreeMore(s: set<int>, a: int, b: int, c: int)
    requires a !in s && b !in s && c !in s && a != b && a != c && b != c
    ensures |s + {a, b, c}| == |s| + 3
  {
    assert s + {a, b, c} == s + {a} + {b} + {c};
  }

  lemma RetireChains(desc: seq<Desc>, ops: seq<Op>, z: Desc, free: seq<bool>, g: Ghost, h: int, d1: int, d2: int)
    requires Chains(desc, ops, g) && Parted(free, g) && h in g.reqs && |desc| == NUM && d1 == g.reqs[h].d1
      && d2 == g.reqs[h].d2
    requires 0 <= h < NUM && 0 <= d1 < NUM && 0 <= d2 < NUM
    ensures Chains(desc[h := z][d1 := z][d2 := z], ops, Retire(g, h))
  {
    var desc' := desc[h := z][d1 := z][d2 := z];
    forall j | j in g.reqs && j != h ensures Chain(desc', ops, g.reqs[j], j) {
      assert Chain(desc, ops, g.reqs[j], j);
      OtherParts(free, g, h, j, j);
      OtherParts(free, g, h, j, g.reqs[j].d1);
      OtherParts(free, g, h, j, g.reqs[j].d2);
    }
  }

  lemma RetireBuf(info: seq<Info>, busy: set<int>, g: Ghost, h: int)
    requires BufOk(info, busy, g) && h in g.reqs
    ensures 0 <= h < NUM && BufOk(info[h := info[h].(b := NONE)], busy, Retire(g, h))
  {
  }
}
