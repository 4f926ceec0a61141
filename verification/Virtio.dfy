/**
 virtio_disk.c, and a device that obeys section 2.6 of VIRTIO 1.1: it takes requests from
 the avail ring in order, completes those it has taken in any order, once each. Every method
 but Intr is one section under vdisk_lock or one action of the device, so that "every method
 keeps Valid()" speaks of every interleaving; in Intr the device may act at every turn of the
 loop. What a request's section writes before it moves avail->idx is not looked at by the device.
 */
module Virtio {
  import opened VirtQueue

  const ZERO: Desc := Desc(Null, 0, false, false, 0)

  // The driver's and the device's memory.
  datatype Mem = Mem(free: seq<bool>, desc: seq<Desc>, ops: seq<Op>, info: seq<Info>, ring: seq<int>, uring: seq<int>,
      busy: set<int>)

  // The four parts of the invariant, kept folded until they are named.
  ghost predicate HasDescs(m: Mem, g: Ghost) { |m.free| == NUM && forall x :: x == g ==> DescOk(m.free, x) }
  ghost predicate HasChains(m: Mem, g: Ghost) {
    |m.desc| == |m.ops| == NUM && forall x :: x == g ==> Chains(m.desc, m.ops, x)
  }
  ghost predicate HasRings(m: Mem, g: Ghost) {
    |m.ring| == |m.uring| == NUM && forall x :: x == g ==> RingOk(m.ring, m.uring, x)
  }
  ghost predicate HasBufs(m: Mem, g: Ghost) { |m.info| == NUM && forall x :: x == g ==> BufOk(m.info, m.busy, x) }

  ghost predicate Good(m: Mem, g: Ghost) { HasDescs(m, g) && HasChains(m, g) && HasRings(m, g) && HasBufs(m, g) }

  ghost predicate Sound(m: Mem, g: Ghost) { forall x :: x == m ==> Good(x, g) }

  // ---------------------------------------------------------------------
  // What a descriptor lets the device do: load its len bytes if it is not marked for writing, and
  // store them if it is.

  const BSIZE: int := 1024

  function OpSeen(d: Desc, op: Op): (r: Op) { if d.write || d.len != 16 then Op(false, NONE) else op }

  // to, with its first bytes loaded from mem
  function Loaded(d: Desc, mem: seq<int>, to: seq<int>): (r: seq<int>) {
    if d.write || !(0 <= d.len <= |mem| && d.len <= |to|) then to else mem[..d.len] + to[d.len..]
  }

  // mem, with its first bytes stored from src
  function Stored(d: Desc, mem: seq<int>, src: seq<int>): (r: seq<int>) {
    if !d.write || !(0 <= d.len <= |mem| && d.len <= |src|) then mem else src[..d.len] + mem[d.len..]
  }

  function StatusStored(d: Desc, old': int, status: int): (r: int) {
    if d.write && d.len >= 1 then status else old'
  }

  // What the device does not store to stays as it was.
  lemma OnlyAllowed(d: Desc, mem: seq<int>, src: seq<int>)
    ensures |Loaded(d, mem, src)| == |src| && |Stored(d, mem, src)| == |mem|
    ensures !d.write ==> Stored(d, mem, src) == mem
    ensures d.write ==> Loaded(d, mem, src) == src
    ensures forall i :: 0 <= d.len <= i < |mem| ==> Stored(d, mem, src)[i] == mem[i]
    ensures d.len == |mem| == |src| ==> Loaded(d, mem, src) == (if d.write then src else mem)
    ensures d.len == |mem| == |src| ==> Stored(d, mem, src) == (if d.write then src else mem)
  {
  }

  // The chain at h, as section 5.2.6 of VIRTIO 1.1 has it: the header for the device to read, the
  // block for it to read or to write, and the status byte for it to write.
  ghost predicate Requests(desc: seq<Desc>, ops: seq<Op>, info: seq<Info>, h: int, b: int, sector: int, write: bool) {
    && |desc| == |ops| == |info| == NUM && 0 <= h < NUM && 0 <= desc[h].next < NUM
    && 0 <= desc[desc[h].next].next < NUM
    && desc[h].addr == OpOf(h) && desc[h].len == 16 && desc[h].more && !desc[h].write
    && ops[h].write == write && ops[h].sector == sector && info[h].b == b && info[h].status == 0xff
    && Block(desc[desc[h].next], b, write) && StatusByte(desc[desc[desc[h].next].next], h)
  }

  predicate Block(d: Desc, b: int, write: bool) {
    d.addr == DataOf(b) && d.len == BSIZE && d.more && d.write == !write
  }

  predicate StatusByte(d: Desc, h: int) { d.addr == StatusOf(h) && d.len == 1 && !d.more && d.write }

  lemma Published(m: Mem, g: Ghost, h: int)
    requires Sound(m, g) && h in g.reqs && h in g.phase && g.phase[h].Queued?
    ensures Requests(m.desc, m.ops, m.info, h, g.reqs[h].b, g.reqs[h].sector, g.reqs[h].write)
  {
    assert Good(m, g);
    assert Chains(m.desc, m.ops, g) && BufOk(m.info, m.busy, g);
    assert Chain(m.desc, m.ops, g.reqs[h], h);
  }

  // Descriptors that are free may hold anything.
  lemma FreeChange(m: Mem, desc': seq<Desc>, g: Ghost)
    requires Good(m, g) && |desc'| == NUM && forall d :: 0 <= d < NUM && !m.free[d] ==> desc'[d] == m.desc[d]
    ensures Sound(m.(desc := desc'), g)
  {
    assert Chains(desc', m.ops, g) by {
      assert DescOk(m.free, g);
      AllInUse(m.free, g);
      assert Chains(m.desc, m.ops, g);
      forall j | j in g.reqs ensures Chain(desc', m.ops, g.reqs[j], j) {
        assert Chain(m.desc, m.ops, g.reqs[j], j) && InUse(m.free, g.reqs[j], j);
      }
    }
    assert Good(m.(desc := desc'), g);
  }

  function Formatted(desc: seq<Desc>, h: int, d1: int, d2: int, b: int, write: bool): (desc': seq<Desc>)
    requires |desc| == NUM && 0 <= h < NUM && 0 <= d1 < NUM && 0 <= d2 < NUM
  {
    desc[h := Desc(OpOf(h), 16, true, false, d1)][d1 := Desc(DataOf(b), 1024, true, !write, d2)][d2 :=
      Desc(StatusOf(h), 1, false, true, 0)]
  }

  lemma FormattedChain(desc: seq<Desc>, ops: seq<Op>, h: int, r: Req)
    requires |desc| == |ops| == NUM && 0 <= h < NUM && 0 <= r.d1 < NUM && 0 <= r.d2 < NUM && h != r.d1 && h != r.d2
      && r.d1 != r.d2
    ensures var desc' := Formatted(desc, h, r.d1, r.d2, r.b, r.write);
      Chain(desc', ops[h := Op(r.write, r.sector)], r, h)
        && forall d :: 0 <= d < NUM && d != h && d != r.d1 && d != r.d2 ==> desc'[d] == desc[d]
  {
  }

  ghost function Issued(m: Mem, g: Ghost, h: int, r: Req): (m': Mem)
    requires |m.free| == |m.desc| == |m.ops| == |m.info| == |m.ring| == NUM
    requires 0 <= h < NUM && 0 <= r.d1 < NUM && 0 <= r.d2 < NUM
  {
    Mem(m.free[h := false][r.d1 := false][r.d2 := false], Formatted(m.desc, h, r.d1, r.d2, r.b, r.write),
        m.ops[h := Op(r.write, r.sector)], m.info[h := Info(r.b, 0xff)], m.ring[g.avail % NUM := h], m.uring,
          m.busy + {r.b})
  }

  lemma Few(m: Mem, g: Ghost)
    requires HasDescs(m, g)
    ensures |g.reqs| <= 2
  {
    assert DescOk(m.free, g);
    FewRequests(m.free, g);
  }

  lemma IssueHasDescs(m: Mem, g: Ghost, h: int, r: Req)
    requires HasDescs(m, g) && CanIssue(m.free, g, h, r)
    ensures h !in g.reqs && DescOk(m.free[h := false][r.d1 := false][r.d2 := false], Issue(g, h, r))
  {
    assert DescOk(m.free, g);
    IssueDesc(m.free, g, h, r);
  }

  lemma IssueHasRings(m: Mem, g: Ghost, h: int, r: Req)
    requires HasDescs(m, g) && HasRings(m, g) && h !in g.reqs
    ensures RingOk(m.ring[g.avail % NUM := h], m.uring, Issue(g, h, r))
  {
    Few(m, g);
    assert RingOk(m.ring, m.uring, g);
    IssueRing(m.ring, m.uring, g, h, r);
  }

  lemma IssueHasBufs(m: Mem, g: Ghost, h: int, r: Req)
    requires HasBufs(m, g) && h !in g.reqs && 0 <= h < NUM && forall j :: j in g.reqs ==> g.reqs[j].b != r.b
    ensures BufOk(m.info[h := Info(r.b, 0xff)], m.busy + {r.b}, Issue(g, h, r))
  {
    assert BufOk(m.info, m.busy, g);
    IssueBuf(m.info, m.busy, g, h, r);
  }

  lemma BusyDescs(m: Mem, g: Ghost)
    requires HasDescs(m, g)
    ensures forall j :: j in g.reqs ==> InUse(m.free, g.reqs[j], j)
  {
    assert DescOk(m.free, g);
    AllInUse(m.free, g);
  }

  lemma IssueHasChains(m: Mem, g: Ghost, h: int, r: Req)
    requires HasDescs(m, g) && HasChains(m, g) && CanIssue(m.free, g, h, r)
    ensures Chains(Formatted(m.desc, h, r.d1, r.d2, r.b, r.write), m.ops[h := Op(r.write, r.sector)], Issue(g, h, r))
  {
    assert Chains(m.desc, m.ops, g);
    BusyDescs(m, g);
    FormattedChain(m.desc, m.ops, h, r);
    IssueChains(m.desc, m.ops, Formatted(m.desc, h, r.d1, r.d2, r.b, r.write), m.ops[h := Op(r.write, r.sector)],
      m.free, g, h, r);
  }

  lemma IssueGood(m: Mem, g: Ghost, h: int, r: Req)
    requires Good(m, g) && CanIssue(m.free, g, h, r) && forall j :: j in g.reqs ==> g.reqs[j].b != r.b
    ensures h !in g.reqs && Sound(Issued(m, g, h, r), Issue(g, h, r))
  {
    var m', g' := Issued(m, g, h, r), Issue(g, h, r);
    assert h !in g.reqs && HasDescs(m', g') by { IssueHasDescs(m, g, h, r); }
    assert HasRings(m', g') by { IssueHasRings(m, g, h, r); }
    assert HasBufs(m', g') by { IssueHasBufs(m, g, h, r); }
    assert HasChains(m', g') by { IssueHasChains(m, g, h, r); }
    assert Good(m', g');
  }

  // Descriptors do not change when a request moves on.
  lemma SameDescs(m: Mem, m': Mem, g: Ghost, g': Ghost)
    requires HasDescs(m, g) && HasChains(m, g) && m'.free == m.free && m'.desc == m.desc && m'.ops == m.ops
    requires g'.reqs == g.reqs && g'.owner == g.owner && g'.idle == g.idle
    ensures HasDescs(m', g') && HasChains(m', g')
  {
    assert DescOk(m'.free, g') by { assert DescOk(m.free, g); SameDesc(m.free, g, g'); }
    assert Chains(m'.desc, m'.ops, g') by { assert Chains(m.desc, m.ops, g); }
  }

  lemma FetchGood(m: Mem, g: Ghost)
    requires Good(m, g) && g.fetched < g.avail
    ensures var h := m.ring[g.fetched % NUM];
      h in g.reqs && h in g.phase && g.phase[h] == Queued(g.fetched) && Sound(m, Fetch(g, h))
  {
    var h := m.ring[g.fetched % NUM];
    SameDescs(m, m, g, Fetch(g, h));
    Few(m, g);
    assert h in g.reqs && h in g.phase && g.phase[h] == Queued(g.fetched) && RingOk(m.ring, m.uring, Fetch(g, h)) by {
      assert RingOk(m.ring, m.uring, g);
      FetchRing(m.ring, m.uring, g);
    }
    assert BufOk(m.info, m.busy, Fetch(g, h)) by { assert BufOk(m.info, m.busy, g); FetchBuf(m.info, m.busy, g, h); }
    assert Good(m, Fetch(g, h));
  }

  ghost function Completed(m: Mem, g: Ghost, h: int): (m': Mem)
    requires |m.uring| == |m.info| == NUM && 0 <= h < NUM
  {
    m.(uring := m.uring[g.used % NUM := h], info := m.info[h := m.info[h].(status := 0)])
  }

  lemma CompleteGood(m: Mem, g: Ghost, h: int)
    requires Good(m, g) && h in g.flying
    ensures h in g.reqs && 0 <= h < NUM && Sound(Completed(m, g, h), Complete(g, h))
  {
    assert h in g.reqs && h in g.phase && g.phase[h] == InFlight by { assert RingOk(m.ring, m.uring, g); }
    assert 0 <= h < NUM by { assert BufOk(m.info, m.busy, g); }
    var m', g' := Completed(m, g, h), Complete(g, h);
    SameDescs(m, m', g, g');
    Few(m, g);
    assert RingOk(m'.ring, m'.uring, g') by { assert RingOk(m.ring, m.uring, g); CompleteRing(m.ring, m.uring, g, h); }
    assert BufOk(m'.info, m'.busy, g') by { assert BufOk(m.info, m.busy, g); CompleteBuf(m.info, m.busy, g, h); }
    assert Good(m', g');
  }

  lemma SeeGood(m: Mem, g: Ghost)
    requires Good(m, g) && g.seen < g.used
    ensures var h := m.uring[g.seen % NUM];
      && h in g.reqs && 0 <= h < NUM && h in g.phase && g.phase[h].Done? && m.info[h].b == g.reqs[h].b
        && m.info[h].status == 0
      && Sound(m.(busy := m.busy - {m.info[h].b}), See(g, h))
  {
    var h := m.uring[g.seen % NUM];
    Few(m, g);
    assert h in g.reqs && h in g.phase && g.phase[h].Done? && RingOk(m.ring, m.uring, See(g, h)) by {
      assert RingOk(m.ring, m.uring, g);
      SeeRing(m.ring, m.uring, g);
    }
    assert 0 <= h < NUM && m.info[h].b == g.reqs[h].b && m.info[h].status == 0 by { assert BufOk(m.info, m.busy, g); }
    var m' := m.(busy := m.busy - {m.info[h].b});
    SameDescs(m, m', g, See(g, h));
    assert BufOk(m'.info, m'.busy, See(g, h)) by { assert BufOk(m.info, m.busy, g); SeeBuf(m.info, m.busy, g, h); }
    assert Good(m', See(g, h));
  }

  ghost function Retired(m: Mem, h: int, d1: int, d2: int): (m': Mem)
    requires |m.free| == |m.desc| == |m.info| == NUM && 0 <= h < NUM && 0 <= d1 < NUM && 0 <= d2 < NUM
  {
    m.(free := m.free[h := true][d1 := true][d2 := true], desc := m.desc[h := ZERO][d1 := ZERO][d2 := ZERO],
       info := m.info[h := m.info[h].(b := NONE)])
  }

  lemma RetireGood(m: Mem, g: Ghost, h: int)
    requires Good(m, g) && h in g.reqs && h in g.phase && g.phase[h] == Seen
    ensures var r := g.reqs[h];
      && 0 <= h < NUM && 0 <= r.d1 < NUM && 0 <= r.d2 < NUM && h != r.d1 && h != r.d2 && r.d1 != r.d2
      && !m.free[h] && !m.free[r.d1] && !m.free[r.d2] && Chain(m.desc, m.ops, r, h)
      && Sound(Retired(m, h, r.d1, r.d2), Retire(g, h))
  {
    var r := g.reqs[h];
    RetireParts(m, g, h);
    var m', g' := Retired(m, h, r.d1, r.d2), Retire(g, h);
    assert HasDescs(m', g') by { RetireHasDescs(m, g, h); }
    assert HasRings(m', g') by { RetireHasRings(m, g, h); }
    assert HasBufs(m', g') by { RetireHasBufs(m, g, h); }
    assert HasChains(m', g') by { RetireHasChains(m, g, h); }
    assert Good(m', g');
  }

  lemma RetireParts(m: Mem, g: Ghost, h: int)
    requires HasDescs(m, g) && HasChains(m, g) && h in g.reqs
    ensures var r := g.reqs[h];
      InUse(m.free, r, h) && h != r.d1 && h != r.d2 && r.d1 != r.d2 && Chain(m.desc, m.ops, r, h)
  {
    assert DescOk(m.free, g);
    Parts(m.free, g, h);
    assert Chains(m.desc, m.ops, g);
  }

  lemma RetireHasDescs(m: Mem, g: Ghost, h: int)
    requires HasDescs(m, g) && h in g.reqs && InUse(m.free, g.reqs[h], h)
    ensures DescOk(m.free[h := true][g.reqs[h].d1 := true][g.reqs[h].d2 := true], Retire(g, h))
  {
    assert DescOk(m.free, g);
    RetireDesc(m.free, g, h, g.reqs[h].d1, g.reqs[h].d2);
  }

  lemma RetireHasRings(m: Mem, g: Ghost, h: int)
    requires HasRings(m, g) && h in g.reqs && h in g.phase && g.phase[h] == Seen
    ensures RingOk(m.ring, m.uring, Retire(g, h))
  {
    assert RingOk(m.ring, m.uring, g);
    RetireRing(m.ring, m.uring, g, h);
  }

  lemma RetireHasBufs(m: Mem, g: Ghost, h: int)
    requires HasBufs(m, g) && h in g.reqs && 0 <= h < NUM
    ensures BufOk(m.info[h := m.info[h].(b := NONE)], m.busy, Retire(g, h))
  {
    assert BufOk(m.info, m.busy, g);
    RetireBuf(m.info, m.busy, g, h);
  }

  lemma RetireHasChains(m: Mem, g: Ghost, h: int)
    requires HasDescs(m, g) && HasChains(m, g) && h in g.reqs && InUse(m.free, g.reqs[h], h)
    ensures Chains(m.desc[h := ZERO][g.reqs[h].d1 := ZERO][g.reqs[h].d2 := ZERO], m.ops, Retire(g, h))
  {
    assert DescOk(m.free, g) && Chains(m.desc, m.ops, g);
    RetireChains(m.desc, m.ops, ZERO, m.free, g, h, g.reqs[h].d1, g.reqs[h].d2);
  }

  // With at most two requests about, indices that wrap at 2^16 differ iff the positions do.
  lemma IndexDiffers(m: Mem, g: Ghost)
    requires Good(m, g)
    ensures g.avail % U16 != g.fetched % U16 <==> g.fetched < g.avail
    ensures g.used % U16 != g.seen % U16 <==> g.seen < g.used
    ensures 0 <= g.seen <= g.used <= g.fetched <= g.avail
  {
    Few(m, g);
    assert 0 <= g.seen <= g.used <= g.fetched <= g.avail <= g.seen + 2 by { assert RingOk(m.ring, m.uring, g); }
    Near(g.fetched, g.avail);
    Near(g.seen, g.used);
  }

  lemma Near(a: int, b: int)
    requires 0 <= a <= b <= a + 2
    ensures b % U16 != a % U16 <==> a < b
  {
  }

  ghost const LOW: set<int> := {0, 1, 2, 3}
  ghost const HIGH: set<int> := {4, 5, 6, 7}

  lemma EightFree()
    ensures |LOW + HIGH| == NUM && forall d :: d in LOW + HIGH <==> 0 <= d < NUM
  {
    assert |LOW| == 4 && |HIGH| == 4 && LOW * HIGH == {};
  }

  lemma InitialGood(m: Mem, g: Ghost)
    requires m.free == seq(NUM, _ => true) && |m.desc| == |m.ops| == |m.info| == |m.ring| == |m.uring| == NUM
    requires g == Ghost(map[], map[], map[], 0, 0, 0, 0, {}, LOW + HIGH, {})
    ensures Sound(m, g)
  {
    EightFree();
    assert DescOk(m.free, g) && Chains(m.desc, m.ops, g) && RingOk(m.ring, m.uring, g) && BufOk(m.info, m.busy, g);
    assert Good(m, g);
  }

  function Stage(ph: Phase): (n: int) {
    match ph
    case Queued(_) => 0
    case InFlight => 1
    case Done(_) => 2
    case Seen => 3
  }

  // Request h, about buffer b, was seen by the driver between g0 and g.
  ghost predicate ClearedBy(g0: Ghost, g: Ghost, h: int, b: int) {
    h in g.reqs && h in g.phase && h in g0.phase && g.phase[h] == Seen && g0.phase[h] != Seen && g.reqs[h].b == b
  }

  // How far requests have come from g0 to g, while virtio_disk_intr runs and the device goes on.
  ghost predicate Progressed(g0: Ghost, busy0: set<int>, g: Ghost, busy: set<int>) {
    && g.reqs == g0.reqs && g.phase.Keys == g0.phase.Keys && g.reqs.Keys == g.phase.Keys && busy <= busy0
    && g.avail == g0.avail && g.idle == g0.idle
    && (forall h :: h in g.phase ==> g.phase[h] == g0.phase[h] || Stage(g.phase[h]) > Stage(g0.phase[h]))
    && (forall b :: b in busy0 && b !in busy ==> exists h :: ClearedBy(g0, g, h, b))
  }

  ghost predicate Handled(g0: Ghost, busy0: set<int>, g: Ghost, busy: set<int>) {
    g.avail == g0.avail && forall x :: x == g ==> Progressed(g0, busy0, x, busy)
  }

  // A request moves on, but is not seen yet.
  lemma MoveHandled(g0: Ghost, busy0: set<int>, g: Ghost, busy: set<int>, h: int, ph: Phase)
    requires Handled(g0, busy0, g, busy) && h in g.phase && Stage(g.phase[h]) < Stage(ph) < 3
    ensures Handled(g0, busy0, g.(phase := g.phase[h := ph]), busy)
  {
    var g' := g.(phase := g.phase[h := ph]);
    assert Progressed(g0, busy0, g, busy);
    forall b | b in busy0 && b !in busy ensures exists j :: ClearedBy(g0, g', j, b) {
      var j :| ClearedBy(g0, g, j, b);
      assert ClearedBy(g0, g', j, b);
    }
    assert Progressed(g0, busy0, g', busy);
  }

  // The ring positions do not matter.
  lemma SameProgress(g0: Ghost, busy0: set<int>, g: Ghost, g': Ghost, busy: set<int>)
    requires Handled(g0, busy0, g, busy) && g'.reqs == g.reqs && g'.phase == g.phase && g'.avail == g.avail
      && g'.idle == g.idle
    ensures Handled(g0, busy0, g', busy)
  {
    assert Progressed(g0, busy0, g, busy);
    forall b | b in busy0 && b !in busy ensures exists j :: ClearedBy(g0, g', j, b) {
      var j :| ClearedBy(g0, g, j, b);
      assert ClearedBy(g0, g', j, b);
    }
    assert Progressed(g0, busy0, g', busy);
  }

  // The driver sees a completed request and releases its buffer.
  lemma SeeHandled(g0: Ghost, busy0: set<int>, g: Ghost, busy: set<int>, h: int)
    requires Handled(g0, busy0, g, busy) && h in g.reqs && h in g.phase && g.phase[h].Done?
    ensures Handled(g0, busy0, See(g, h), busy - {g.reqs[h].b})
  {
    var g', busy' := See(g, h), busy - {g.reqs[h].b};
    assert Progressed(g0, busy0, g, busy);
    assert ClearedBy(g0, g', h, g.reqs[h].b);
    forall b | b in busy0 && b !in busy' ensures exists j :: ClearedBy(g0, g', j, b) {
      if b !in busy {
        var j :| ClearedBy(g0, g, j, b);
        assert ClearedBy(g0, g', j, b);
      }
    }
    assert Progressed(g0, busy0, g', busy');
  }

  class Disk {
    var free: seq<bool>
    var desc: seq<Desc>
    var ops: seq<Op>
    var info: seq<Info>
    var ring: seq<int>       // avail->ring
    var availIdx: int        // avail->idx
    var lookIdx: int         // used_idx, the driver's own
    var busy: set<int>       // the buffers with disk == 1

    var uring: seq<int>      // used->ring, written by the device
    var usedIdx: int         // used->idx
    var devIdx: int          // the device's place in the avail ring
    var taken: set<int>      // requests the device has fetched and not completed

    var data: map<int, seq<int>>     // content of each buffer
    var blocks: map<int, seq<int>>   // content of the disk, by first sector

    ghost var g: Ghost

    ghost function Now(): (m: Mem)
      reads this`free, this`desc, this`ops, this`info, this`ring, this`uring, this`busy
    {
      Mem(free, desc, ops, info, ring, uring, busy)
    }

    // all but what the descriptors and rings hold
    ghost predicate Framed()
      reads this
    {
      && |free| == |desc| == |ops| == |info| == |ring| == |uring| == NUM
      && availIdx == g.avail % U16 && devIdx == g.fetched % U16 && usedIdx == g.used % U16 && lookIdx == g.seen % U16
      && 0 <= g.seen && 0 <= g.used && 0 <= g.fetched && 0 <= g.avail && taken == g.flying
      && (forall h :: h in g.reqs ==> g.reqs[h].b in data && g.reqs[h].sector in blocks)
      && (forall b :: b in data ==> |data[b]| == BSIZE) && (forall s :: s in blocks ==> |blocks[s]| == BSIZE)
    }

    ghost predicate Valid()
      reads this
    {
      Framed() && Sound(Now(), g)
    }

    // virtio_disk_init: all descriptors free, both rings empty
    constructor (data: map<int, seq<int>>, blocks: map<int, seq<int>>)
      requires (forall b :: b in data ==> |data[b]| == BSIZE) && forall s :: s in blocks ==> |blocks[s]| == BSIZE
      ensures Valid() && g.reqs == map[] && this.data == data && this.blocks == blocks
    {
      this.data, this.blocks := data, blocks;
      free, desc, ops := seq(NUM, _ => true), seq(NUM, _ => ZERO), seq(NUM, _ => Op(false, 0));
      info, ring, uring := seq(NUM, _ => Info(NONE, 0)), seq(NUM, _ => 0), seq(NUM, _ => 0);
      availIdx, lookIdx, usedIdx, devIdx, busy, taken := 0, 0, 0, 0, {}, {};
      g := Ghost(map[], map[], map[], 0, 0, 0, 0, {}, LOW + HIGH, {});
      new;
      assert Sound(Now(), g) by { InitialGood(Now(), g); }
    }

    // alloc_desc
    method AllocDesc() returns (i: int)
      requires |free| == NUM
      modifies this`free
      ensures i == -1 ==> free == old(free) && forall d :: 0 <= d < NUM ==> !free[d]
      ensures i != -1 ==> 0 <= i < NUM && old(free)[i] && free == old(free)[i := false]
    {
      i := 0;
      while i < NUM
        invariant 0 <= i <= NUM && free == old(free) && forall d :: 0 <= d < i ==> !free[d]
      {
        if free[i] {
          free := free[i := false];
          return;
        }
        i := i + 1;
      }
      i := -1;
    }

    // free_desc; its two panics are the preconditions
    method FreeDesc(i: int)
      requires |free| == |desc| == NUM && 0 <= i < NUM && !free[i]
      modifies this`free, this`desc
      ensures free == old(free)[i := true] && desc == old(desc)[i := Desc(Null, 0, false, false, 0)]
    {
      desc := desc[i := ZERO];
      free := free[i := true];
    }

    // alloc3_desc: three descriptors or none; idle is the set of free ones.
    method Alloc3Desc(ghost idle: set<int>) returns (ok: bool, idx: seq<int>)
      requires |free| == |desc| == NUM && forall d :: d in idle <==> 0 <= d < NUM && free[d]
      modifies this`free, this`desc
      ensures ok ==> |idx| == 3 && desc == old(desc) && idx[0] != idx[1] && idx[0] != idx[2] && idx[1] != idx[2]
      ensures ok ==> forall j :: 0 <= j < 3 ==> 0 <= idx[j] < NUM && old(free)[idx[j]]
      ensures ok ==> free == old(free)[idx[0] := false][idx[1] := false][idx[2] := false]
      ensures !ok ==> |idle| < 3 && free == old(free) && |desc| == NUM
      ensures !ok ==> forall d :: 0 <= d < NUM && !free[d] ==> desc[d] == old(desc)[d]
    {
      idx := [];
      var i := 0;
      while i < 3
        invariant 0 <= i <= 3 && |idx| == i && |free| == NUM && desc == old(desc)
        invariant forall j :: 0 <= j < i ==> 0 <= idx[j] < NUM && old(free)[idx[j]]
        invariant forall j, k :: 0 <= j < k < i ==> idx[j] != idx[k]
        invariant forall d :: 0 <= d < NUM ==> (free[d] <==> old(free)[d] && d !in idx)
      {
        var d := AllocDesc();
        if d < 0 {
          TooFew(idle, idx);
          GiveBack(idx, old(free));
          return false, idx;
        }
        idx := idx + [d];
        i := i + 1;
      }
      ok := true;
    }

    lemma TooFew(idle: set<int>, idx: seq<int>)
      requires |idx| < 3 && forall d :: d in idle ==> d in idx
      ensures |idle| < 3
    {
      forall d | d in idle ensures |idx| > 0 && (d == idx[0] || (|idx| == 2 && d == idx[1])) {
        var k :| 0 <= k < |idx| && idx[k] == d;
      }
      var s := if |idx| == 0 then {} else if |idx| == 1 then {idx[0]} else {idx[0], idx[1]};
      assert s == idle + (s - idle);
    }

    // alloc3_desc frees what it has
    method GiveBack(idx: seq<int>, ghost before: seq<bool>)
      requires |free| == |desc| == |before| == NUM
      requires forall j :: 0 <= j < |idx| ==> 0 <= idx[j] < NUM && before[idx[j]]
      requires forall j, k :: 0 <= j < k < |idx| ==> idx[j] != idx[k]
      requires forall d :: 0 <= d < NUM ==> (free[d] <==> before[d] && d !in idx)
      modifies this`free, this`desc
      ensures free == before && |desc| == NUM && forall d :: 0 <= d < NUM && !before[d] ==> desc[d] == old(desc)[d]
    {
      for j := 0 to |idx|
        invariant |free| == |desc| == NUM
        invariant forall d :: 0 <= d < NUM ==> (free[d] <==> before[d] && d !in idx[j..])
        invariant forall d :: 0 <= d < NUM && !before[d] ==> desc[d] == old(desc)[d]
      {
        assert idx[j..] == [idx[j]] + idx[j + 1..];
        FreeDesc(idx[j]);
      }
    }

    // virtio_disk_rw up to the notification: false if it has to sleep for descriptors. b is locked
    // by the caller, so no other request is about it. h and r say which request this is.
    method Submit(b: int, blockno: int, write: bool) returns (ok: bool, h: int, ghost r: Req)
      requires Valid() && b in data && 2 * blockno in blocks && forall j :: j in g.reqs ==> g.reqs[j].b != b
      modifies this`free, this`desc, this`ops, this`info, this`ring, this`availIdx, this`busy, this`g
      ensures Valid() && (ok <==> |old(g).idle| >= 3)
      ensures !ok ==> g == old(g) && busy == old(busy)
      ensures ok ==> h !in old(g).reqs && g == Issue(old(g), h, r) && busy == old(busy) + {b}
      ensures ok ==> r.b == b && r.sector == 2 * blockno && r.write == write
      ensures ok ==> Requests(desc, ops, info, h, b, 2 * blockno, write)
      ensures ok ==>
        |ring| == NUM && ring == old(ring)[old(availIdx) % NUM := h] && availIdx == (old(availIdx) + 1) % U16
    {
      ghost var m := Now();
      var idx;
      IdleIsFree();
      ok, idx := Alloc3Desc(g.idle);
      h, r := NONE, Req(b, 2 * blockno, write, NONE, NONE);
      if !ok {
        FreeChanged(m, desc);
        return;
      }
      ThreeIdle(idx, m.free);
      h, r := idx[0], r.(d1 := idx[1], d2 := idx[2]);
      Publish(b, 2 * blockno, write, idx, m, r);
      Published(Now(), g, h);
    }

    // Formats the three descriptors and puts the request into the avail ring.
    method Publish(b: int, sector: int, write: bool, idx: seq<int>, ghost m: Mem, ghost r: Req)
      requires |idx| == 3 && r == Req(b, sector, write, idx[1], idx[2]) && Sound(m, g) && CanIssue(m.free, g, idx[0], r)
      requires Now() == m.(free := m.free[idx[0] := false][idx[1] := false][idx[2] := false])
      requires Framed() && b in data && sector in blocks && forall j :: j in g.reqs ==> g.reqs[j].b != b
      modifies this`desc, this`ops, this`info, this`ring, this`availIdx, this`busy, this`g
      ensures Valid() && idx[0] !in old(g).reqs && g == Issue(old(g), idx[0], r) && busy == old(busy) + {b}
      ensures |ring| == NUM && ring == old(ring)[old(availIdx) % NUM := idx[0]] && availIdx == (old(availIdx) + 1) % U16
    {
      var h := idx[0];
      IssueSound(m, h, r);
      Format(b, sector, write, idx);
      Advance(h, r);
      assert Now() == Issued(m, old(g), h, r);
    }

    // The request enters the avail ring.
    method Advance(h: int, ghost r: Req)
      requires Framed() && r.b in data && r.sector in blocks
      modifies this`ring, this`availIdx, this`g
      ensures Framed() && g == Issue(old(g), h, r) && ring == old(ring)[old(g).avail % NUM := h]
      ensures ring == old(ring)[old(availIdx) % NUM := h] && availIdx == (old(availIdx) + 1) % U16
    {
      SlotOf(g.avail);
      ring := ring[availIdx % NUM := h];
      availIdx := (availIdx + 1) % U16;
      g := Issue(g, h, r);
    }

    // The three descriptors, the header and the status byte, and the buffer's mark.
    method Format(b: int, sector: int, write: bool, idx: seq<int>)
      requires |idx| == 3 && |desc| == |ops| == |info| == NUM && forall j :: 0 <= j < 3 ==> 0 <= idx[j] < NUM
      modifies this`desc, this`ops, this`info, this`busy
      ensures desc == Formatted(old(desc), idx[0], idx[1], idx[2], b, write)
      ensures ops == old(ops)[idx[0] := Op(write, sector)] && info == old(info)[idx[0] := Info(b, 0xff)]
      ensures busy == old(busy) + {b}
    {
      ops := ops[idx[0] := Op(write, sector)];
      desc := desc[idx[0] := Desc(OpOf(idx[0]), 16, true, false, idx[1])];
      desc := desc[idx[1] := Desc(DataOf(b), 1024, true, !write, idx[2])];
      desc := desc[idx[2] := Desc(StatusOf(idx[0]), 1, false, true, 0)];
      info := info[idx[0] := Info(b, 0xff)];
      busy := busy + {b};
    }

    lemma ThreeIdle(idx: seq<int>, was: seq<bool>)
      requires |idx| == 3 && idx[0] != idx[1] && idx[0] != idx[2] && idx[1] != idx[2] && |was| == NUM
      requires forall j :: 0 <= j < 3 ==> 0 <= idx[j] < NUM && was[idx[j]]
      requires forall d :: d in g.idle <==> 0 <= d < NUM && was[d]
      ensures |g.idle| >= 3
    {
      var s := {idx[0], idx[1], idx[2]};
      assert s <= g.idle;
      assert g.idle == s + (g.idle - s);
    }

    lemma IdleIsFree()
      requires Valid()
      ensures forall d :: d in g.idle <==> 0 <= d < NUM && free[d]
    {
      assert Good(Now(), g);
      assert DescOk(free, g);
    }

    lemma FreeChanged(m: Mem, desc': seq<Desc>)
      requires Sound(m, g) && |desc'| == |m.free| == |m.desc| == NUM
        && forall d :: 0 <= d < NUM && !m.free[d] ==> desc'[d] == m.desc[d]
      ensures Sound(m.(desc := desc'), g)
    {
      assert Good(m, g);
      FreeChange(m, desc', g);
    }

    lemma IssueSound(m: Mem, h: int, r: Req)
      requires Sound(m, g) && |m.free| == |m.desc| == |m.ops| == |m.info| == |m.ring| == NUM
      requires CanIssue(m.free, g, h, r) && forall j :: j in g.reqs ==> g.reqs[j].b != r.b
      ensures h !in g.reqs && Sound(Issued(m, g, h, r), Issue(g, h, r))
    {
      assert Good(m, g);
      IssueGood(m, g, h, r);
    }

    // free_chain of the three descriptors h, d1, d2
    method FreeChain(h: int, ghost d1: int, ghost d2: int)
      requires |free| == |desc| == NUM && 0 <= h < NUM && 0 <= d1 < NUM && 0 <= d2 < NUM
      requires h != d1 && h != d2 && d1 != d2 && !free[h] && !free[d1] && !free[d2]
      requires desc[h].more && desc[h].next == d1 && desc[d1].more && desc[d1].next == d2 && !desc[d2].more
      modifies this`free, this`desc
      ensures free == old(free)[h := true][d1 := true][d2 := true]
      ensures desc == old(desc)[h := ZERO][d1 := ZERO][d2 := ZERO]
    {
      var i := h;
      ghost var n := 0;
      while true
        invariant 0 <= n <= 2 && i == if n == 0 then h else if n == 1 then d1 else d2
        invariant n == 0 ==> free == old(free) && desc == old(desc)
        invariant n == 1 ==> free == old(free)[h := true] && desc == old(desc)[h := ZERO]
        invariant n == 2 ==> free == old(free)[h := true][d1 := true] && desc == old(desc)[h := ZERO][d1 := ZERO]
        decreases 3 - n
      {
        var more, nxt := desc[i].more, desc[i].next;
        FreeDesc(i);
        if more {
          i := nxt;
          n := n + 1;
        } else {
          break;
        }
      }
    }

    // The end of virtio_disk_rw, once b->disk is 0: the descriptors are free again.
    method Finish(h: int)
      requires Valid() && h in g.reqs && g.reqs[h].b !in busy
      modifies this`free, this`desc, this`info, this`g
      ensures Valid() && g == Retire(old(g), h) && |old(free)| == NUM && 0 <= h < NUM
      ensures var r := old(g).reqs[h];
        0 <= r.d1 < NUM && 0 <= r.d2 < NUM && free == old(free)[h := true][r.d1 := true][r.d2 := true]
    {
      ghost var m, r := Now(), g.reqs[h];
      RetireSound(h);
      info := info[h := info[h].(b := NONE)];
      FreeChain(h, r.d1, r.d2);
      assert Now() == Retired(m, h, r.d1, r.d2);
      g := Retire(g, h);
    }

    lemma RetireSound(h: int)
      requires Valid() && h in g.reqs && g.reqs[h].b !in busy
      ensures var r := g.reqs[h];
        && 0 <= h < NUM && 0 <= r.d1 < NUM && 0 <= r.d2 < NUM && h != r.d1 && h != r.d2 && r.d1 != r.d2
        && !free[h] && !free[r.d1] && !free[r.d2] && Chain(desc, ops, r, h)
        && Sound(Retired(Now(), h, r.d1, r.d2), Retire(g, h))
    {
      assert Good(Now(), g);
      assert h in g.phase && g.phase[h] == Seen by { assert BufOk(info, busy, g); }
      RetireGood(Now(), g, h);
    }

    // One turn of virtio_disk_intr's loop.
    method HandleNext(ghost g0: Ghost, ghost busy0: set<int>)
      requires Valid() && g.seen < g.used && Handled(g0, busy0, g, busy)
      modifies this`lookIdx, this`busy, this`g
      ensures Valid() && Handled(g0, busy0, g, busy) && g.seen == old(g).seen + 1
    {
      Next();
      var id := uring[lookIdx % NUM];
      SeeHandled(g0, busy0, g, busy, id);
      assert info[id].status == 0;     // the panic "virtio_disk_intr status" is unreachable
      busy := busy - {info[id].b};
      lookIdx := (lookIdx + 1) % U16;
      g := See(g, id);
    }

    // One action of the device: NONE is the next fetch, anything else the completion of that
    // request; what is not possible does not happen.
    method DeviceActs(act: int, ghost g0: Ghost, ghost busy0: set<int>)
      requires Valid() && Handled(g0, busy0, g, busy)
      modifies this`data, this`blocks, this`info, this`uring, this`usedIdx, this`devIdx, this`taken, this`g
      ensures Valid() && Handled(g0, busy0, g, busy) && g.seen == old(g).seen && g.used >= old(g).used
    {
      ghost var g1 := g;
      if act == NONE && devIdx != availIdx {
        var h := DeviceFetch();
        MoveHandled(g0, busy0, g1, busy, h, InFlight);
        SameProgress(g0, busy0, g1.(phase := g.phase), g, busy);
      } else if act in taken {
        InPhase(act);
        DeviceComplete(act);
        MoveHandled(g0, busy0, g1, busy, act, Done(g1.used));
        SameProgress(g0, busy0, g1.(phase := g.phase), g, busy);
      }
    }

    method DeviceRuns(acts: seq<int>, ghost g0: Ghost, ghost busy0: set<int>)
      requires Valid() && Handled(g0, busy0, g, busy)
      modifies this`data, this`blocks, this`info, this`uring, this`usedIdx, this`devIdx, this`taken, this`g
      ensures Valid() && Handled(g0, busy0, g, busy) && g.seen == old(g).seen && g.used >= old(g).used
    {
      for i := 0 to |acts|
        invariant Valid() && Handled(g0, busy0, g, busy) && g.seen == old(g).seen && g.used >= old(g).used
      {
        DeviceActs(acts[i], g0, busy0);
      }
    }

    // virtio_disk_intr, with the device acting between the test of the loop and its body and
    // between two turns, as script says. When the loop ends the buffers of the requests that are
    // complete by then, and of no others, are released; the panic does not happen with a device
    // that reports success.
    method Intr(script: seq<seq<int>>)
      requires Valid()
      modifies this`lookIdx, this`busy, this`data, this`blocks, this`info, this`uring, this`usedIdx, this`devIdx,
        this`taken, this`g
      ensures Valid() && Handled(old(g), old(busy), g, busy) && g.seen == g.used && lookIdx == usedIdx
      ensures forall h :: h in g.reqs ==>
        h in g.phase && !g.phase[h].Done? && (g.reqs[h].b !in busy <==> g.phase[h] == Seen)
    {
      Unhandled();
      ghost var g0, busy0 := g, busy;
      var turn := 0;
      while lookIdx != usedIdx
        invariant Valid() && Handled(g0, busy0, g, busy) && 0 <= turn
        decreases g.avail - g.seen
      {
        Differs();
        DeviceRuns(Part(script, turn), g0, busy0);
        Differs();
        HandleNext(g0, busy0);
        DeviceRuns(Part(script, turn + 1), g0, busy0);
        turn := turn + 2;
      }
      Differs();
      NoneDone();
    }

    function Part(script: seq<seq<int>>, i: int): (acts: seq<int>) {
      if 0 <= i < |script| then script[i] else []
    }

    lemma InPhase(h: int)
      requires Valid() && h in g.flying
      ensures h in g.phase && g.phase[h] == InFlight
    {
      assert Good(Now(), g);
      assert RingOk(ring, uring, g);
    }

    lemma Unhandled()
      requires Valid()
      ensures Handled(g, busy, g, busy)
    {
      assert Good(Now(), g);
      assert RingOk(ring, uring, g);
      assert Progressed(g, busy, g, busy);
    }

    lemma Differs()
      requires Valid()
      ensures (lookIdx != usedIdx <==> g.seen < g.used) && g.seen <= g.used
      ensures (devIdx != availIdx <==> g.fetched < g.avail) && g.fetched <= g.avail && g.used <= g.avail
    {
      assert Good(Now(), g);
      IndexDiffers(Now(), g);
    }

    lemma Next()
      requires Valid() && g.seen < g.used
      ensures var h := uring[lookIdx % NUM];
        && h in g.reqs && h in g.phase && 0 <= h < NUM && g.phase[h].Done? && info[h].b == g.reqs[h].b
          && info[h].status == 0
        && Sound(Now().(busy := busy - {info[h].b}), See(g, h))
      ensures (lookIdx + 1) % U16 == (g.seen + 1) % U16
    {
      SlotOf(g.seen);
      assert Good(Now(), g);
      SeeGood(Now(), g);
    }

    lemma NoneDone()
      requires Valid() && g.seen == g.used
      ensures forall h :: h in g.reqs ==>
        h in g.phase && !g.phase[h].Done? && (g.reqs[h].b !in busy <==> g.phase[h] == Seen)
    {
      assert Good(Now(), g);
      assert RingOk(ring, uring, g) && BufOk(info, busy, g);
      forall h | h in g.phase ensures !g.phase[h].Done? { assert PhaseOk(ring, uring, g, h); }
    }

    // ---------------------------------------------------------------------
    // The device.

    // It takes the next request from the avail ring.
    method DeviceFetch() returns (h: int)
      requires Valid() && devIdx != availIdx
      modifies this`devIdx, this`taken, this`g
      ensures Valid() && h in old(g).reqs && h in old(g).phase && old(g).phase[h] == Queued(old(g).fetched)
        && g == Fetch(old(g), h)
    {
      Differs();
      Queue();
      h := ring[devIdx % NUM];
      devIdx := (devIdx + 1) % U16;
      taken := taken + {h};
      g := Fetch(g, h);
    }

    lemma Queue()
      requires Valid() && g.fetched < g.avail
      ensures var h := ring[devIdx % NUM];
        h in g.reqs && h in g.phase && g.phase[h] == Queued(g.fetched) && Sound(Now(), Fetch(g, h))
      ensures (devIdx + 1) % U16 == (g.fetched + 1) % U16
    {
      SlotOf(g.fetched);
      assert Good(Now(), g);
      FetchGood(Now(), g);
    }

    // It carries out a request it has taken, as its descriptors say.
    method Transfer(h: int, ghost r: Req)
      requires Valid() && h in g.reqs && r == g.reqs[h] && Chain(desc, ops, r, h)
      modifies this`data, this`blocks
      ensures Valid() && r.b in old(data) && r.sector in old(blocks)
      ensures blocks == if r.write then old(blocks)[r.sector := old(data)[r.b]] else old(blocks)
      ensures data == if r.write then old(data) else old(data)[r.b := old(blocks)[r.sector]]
    {
      var d1 := desc[h].next;
      var op := OpSeen(desc[h], ops[desc[h].addr.i]);
      var b := desc[d1].addr.b;
      OnlyAllowed(desc[d1], data[b], blocks[op.sector]);
      if op.write {
        blocks := blocks[op.sector := Loaded(desc[d1], data[b], blocks[op.sector])];
      } else {
        data := data[b := Stored(desc[d1], data[b], blocks[op.sector])];
      }
    }

    // It reports the request as used.
    method Report(h: int)
      requires Valid() && h in g.flying
      modifies this`info, this`uring, this`usedIdx, this`taken, this`g
      ensures Valid() && g == Complete(old(g), h)
    {
      InChain(h);
      ghost var m', g' := Completed(Now(), g, h), Complete(g, h);
      SlotOf(g.used);
      var d1 := desc[h].next;
      var d2 := desc[d1].next;
      assert desc[d2].addr.i == h;
      var i := desc[d2].addr.i;
      info := info[i := info[i].(status := StatusStored(desc[d2], info[i].status, 0))];
      uring := uring[usedIdx % NUM := h];
      usedIdx := (usedIdx + 1) % U16;
      taken := taken - {h};
      assert Now() == m';
      g := g';
    }

    method DeviceComplete(h: int)
      requires Valid() && h in g.flying
      modifies this`data, this`blocks, this`info, this`uring, this`usedIdx, this`taken, this`g
      ensures Valid() && h in old(g).reqs && g == Complete(old(g), h)
      ensures var r := old(g).reqs[h]; r.b in old(data) && r.sector in old(blocks)
      ensures var r := old(g).reqs[h];
        blocks == if r.write then old(blocks)[r.sector := old(data)[r.b]] else old(blocks)
      ensures var r := old(g).reqs[h]; data == if r.write then old(data) else old(data)[r.b := old(blocks)[r.sector]]
    {
      InChain(h);
      Transfer(h, g.reqs[h]);
      Report(h);
    }

    lemma InChain(h: int)
      requires Valid() && h in g.flying
      ensures h in g.reqs && 0 <= h < NUM && Chain(desc, ops, g.reqs[h], h)
        && Sound(Completed(Now(), g, h), Complete(g, h))
    {
      assert Good(Now(), g);
      CompleteGood(Now(), g, h);
      assert Chains(desc, ops, g);
    }
  }
}
