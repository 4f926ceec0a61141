/**
 What each step of bmap, readi and writei does, stated so that the code can be
 followed step by step: every lemma takes the state before to the state after.
 */
module FsSteps {
  import opened Params
  import opened FsBlock
  import opened FsModel
  import opened FsWrite

  const IPB: int := 16           // inodes per block
  const CHUNK: int := (MAXOPBLOCKS - 1 - 1 - 2) / 2 * BSIZE
  const BPB: int := 8 * BSIZE

  // bitmap block that holds the bit of block b
  function BitmapBlock(b: int, bmapstart: int): (r: int) { b / BPB + bmapstart }

  ghost predicate Sound(fs: Fs) { Inv(fs) }

  // the blocks that address addr stands for
  ghost function Known(addr: int): (s: set<int>) { if addr == 0 then {} else {addr} }

  // Every block that is not as in a has been passed to log_write, and so has the bitmap block of
  // every bit that is not.
  ghost predicate ChangesIn(a: Fs, b: Fs, bmapstart: int, d: set<int>) {
    && |b.bits| == |a.bits| && b.blocks.Keys == a.blocks.Keys
    && (forall x :: x in a.blocks && b.blocks[x] != a.blocks[x] ==> x in d)
    && (forall x :: 0 <= x < |a.bits| && b.bits[x] != a.bits[x] ==> BitmapBlock(x, bmapstart) in d)
  }

  // the same, kept folded
  ghost predicate Logged(a: Fs, b: Fs, bmapstart: int, d: set<int>) {
    forall z :: z == b ==> ChangesIn(a, z, bmapstart, d)
  }

  lemma LoggedNone(a: Fs, bmapstart: int, d: set<int>)
    ensures Logged(a, a, bmapstart, d)
  {
    assert ChangesIn(a, a, bmapstart, d);
  }

  lemma LoggedThen(a: Fs, b: Fs, c: Fs, bmapstart: int, d: set<int>, d': set<int>)
    requires Logged(a, b, bmapstart, d) && Logged(b, c, bmapstart, d') && d <= d'
    ensures Logged(a, c, bmapstart, d')
  {
    assert ChangesIn(a, b, bmapstart, d) && ChangesIn(b, c, bmapstart, d');
    assert ChangesIn(a, c, bmapstart, d');
  }

  lemma LoggedMore(a: Fs, b: Fs, bmapstart: int, d: set<int>, d': set<int>)
    requires Logged(a, b, bmapstart, d) && d <= d'
    ensures Logged(a, b, bmapstart, d')
  {
    assert ChangesIn(a, b, bmapstart, d);
    assert ChangesIn(a, b, bmapstart, d');
  }

  // Only the inodes differ.
  lemma LoggedInodes(a: Fs, b: Fs, c: Fs, bmapstart: int, d: set<int>)
    requires Logged(a, b, bmapstart, d) && c.bits == b.bits && c.blocks == b.blocks
    ensures Logged(a, c, bmapstart, d)
  {
    assert ChangesIn(a, b, bmapstart, d);
    assert ChangesIn(a, c, bmapstart, d);
  }

  // One block is written.
  lemma LoggedPut(a: Fs, b: Fs, c: Fs, x: int, bmapstart: int, d: set<int>, d': set<int>)
    requires Logged(a, b, bmapstart, d) && d <= d' && x in d' && x in b.blocks && x in c.blocks
    requires c.bits == b.bits && c.blocks == b.blocks[x := c.blocks[x]]
    ensures Logged(a, c, bmapstart, d')
  {
    assert ChangesIn(a, b, bmapstart, d);
    assert ChangesIn(a, c, bmapstart, d');
  }

  // balloc
  lemma LoggedClaim(a: Fs, r: int, s: Slot, bmapstart: int, d: set<int>)
    requires 0 <= r < |a.bits| && r in a.blocks && r in d && BitmapBlock(r, bmapstart) in d
    ensures Logged(a, Claim(a, r, s), bmapstart, d)
  {
    assert ChangesIn(a, Claim(a, r, s), bmapstart, d);
  }

  // What bmap of block n of file i has made of a: nothing but new blocks for file i,
  // and block n is addr unless the disk was full.
  ghost predicate Mapped(a: Fs, b: Fs, i: int, n: int, addr: int) {
    && Grown(a, b, i) && -1 <= n < MAXFILE
    && Ref(b, Slot(i, n)) == addr
    && (Ref(a, Slot(i, n)) != 0 ==> b == a)
  }

  ghost predicate Mapping(a: Fs, b: Fs, i: int, n: int, addr: int) {
    forall x :: x == b ==> Mapped(a, x, i, n, addr)
  }

  // own has kept what own0 had, and has new blocks only for file i: its indirect block and blocks lo .. hi
  ghost predicate NewOnly(own0: map<int, Slot>, own: map<int, Slot>, i: int, lo: int, hi: int) {
    && (forall b :: b in own0 ==> b in own && own[b] == own0[b])
    && (forall b :: b in own && b !in own0 ==> own[b].ino == i && (own[b].n == -1 || lo <= own[b].n <= hi))
  }

  ghost predicate Grew(own0: map<int, Slot>, own: map<int, Slot>, i: int, lo: int, hi: int) {
    forall x :: x == own ==> NewOnly(own0, x, i, lo, hi)
  }

  lemma GrewOne(own: map<int, Slot>, r: int, i: int, n: int, lo: int, hi: int)
    requires r !in own && (n == -1 || lo <= n <= hi)
    ensures Grew(own, own[r := Slot(i, n)], i, lo, hi)
  {
    assert NewOnly(own, own[r := Slot(i, n)], i, lo, hi);
  }

  lemma GrewNone(own: map<int, Slot>, i: int, lo: int, hi: int)
    ensures Grew(own, own, i, lo, hi)
  {
    assert NewOnly(own, own, i, lo, hi);
  }

  lemma GrewThen(a: map<int, Slot>, b: map<int, Slot>, c: map<int, Slot>, i: int, lo: int, hi: int, lo': int, hi': int,
      top: int)
    requires Grew(a, b, i, lo, hi) && Grew(b, c, i, lo', hi') && lo <= lo' && hi <= top && hi' <= top
    ensures Grew(a, c, i, lo, top)
  {
    assert NewOnly(a, b, i, lo, hi) && NewOnly(b, c, i, lo', hi');
    assert NewOnly(a, c, i, lo, top);
  }

  // First the indirect block, then block n.
  lemma GrewWide(a: map<int, Slot>, b: map<int, Slot>, c: map<int, Slot>, i: int, n: int, top: int)
    requires Grew(a, b, i, NDIRECT, NDIRECT - 1) && Grew(b, c, i, n, top)
    ensures Grew(a, c, i, n, top)
  {
    assert NewOnly(a, b, i, NDIRECT, NDIRECT - 1) && NewOnly(b, c, i, n, top);
    assert NewOnly(a, c, i, n, top);
  }

  lemma MappingAttach(a: Fs, i: int, n: int, r: int)
    requires Sound(a) && CanAttach(a, Slot(i, n), r)
    ensures Mapping(a, Attach(a, Slot(i, n), r), i, n, r) && Sound(Attach(a, Slot(i, n), r))
    ensures r !in a.own && Attach(a, Slot(i, n), r).own == a.own[r := Slot(i, n)]
  {
    AttachGrown(a, Slot(i, n), r);
    AttachRef(a, Slot(i, n), r, Slot(i, n));
    assert Mapped(a, Attach(a, Slot(i, n), r), i, n, r);
  }

  lemma MappingSelf(a: Fs, i: int, n: int)
    requires Sound(a) && i in a.inodes && -1 <= n < MAXFILE
    ensures Mapping(a, a, i, n, Ref(a, Slot(i, n)))
  {
    GrownSelf(a, i);
    assert Mapped(a, a, i, n, Ref(a, Slot(i, n)));
  }

  lemma MappingThen(a: Fs, b: Fs, c: Fs, i: int, n: int, ind: int, addr: int)
    requires Mapping(a, b, i, -1, ind) && Mapping(b, c, i, n, addr) && NDIRECT <= n < MAXFILE
    ensures Mapping(a, c, i, n, addr)
  {
    assert Mapped(a, b, i, -1, ind) && Mapped(b, c, i, n, addr);
    GrownTrans(a, b, c, i);
    assert Ref(a, Slot(i, n)) != 0 ==> Ref(a, Slot(i, -1)) != 0;
    assert Mapped(a, c, i, n, addr);
  }

  // count is at most the number of blocks that have to be allocated to map block n of file i
  ghost predicate Bounded(fs: Fs, i: int, n: int, count: int) {
    && Inv(fs) && i in fs.inodes && 0 <= n < MAXFILE
    && count <= (if Ref(fs, Slot(i, n)) == 0 then 1 else 0)
              + (if n >= NDIRECT && fs.inodes[i].addrs[NDIRECT] == 0 then 1 else 0)
  }

  ghost predicate Cost(fs: Fs, i: int, n: int, count: int) {
    forall x :: x == fs ==> Bounded(x, i, n, count)
  }

  // First the indirect block, then the entry.
  lemma CostSum(a: Fs, b: Fs, i: int, n: int, ind: int, bm1: set<int>, bm2: set<int>)
    requires Mapping(a, b, i, -1, ind) && ind != 0 && NDIRECT <= n < MAXFILE
    requires i in a.inodes && |a.inodes[i].addrs| == NDIRECT + 1
      && |bm1| <= if a.inodes[i].addrs[NDIRECT] == 0 then 1 else 0
    requires ind in b.blocks && |b.blocks[ind].bytes| == BSIZE
      && |bm2| <= if Word(b.blocks[ind], n - NDIRECT) == 0 then 1 else 0
    ensures Cost(a, i, n, |bm1 + bm2|)
  {
    assert Mapped(a, b, i, -1, ind);
    assert Ref(a, Slot(i, -1)) == a.inodes[i].addrs[NDIRECT];
    assert Ref(b, Slot(i, -1)) == b.inodes[i].addrs[NDIRECT];
    assert Bounded(a, i, n, |bm1 + bm2|);
  }

  lemma MappingBlock(a: Fs, b: Fs, i: int, n: int, addr: int)
    requires Mapping(a, b, i, n, addr) && addr != 0
    ensures addr in b.blocks && BlockOk(b.blocks[addr])
  {
    assert Mapped(a, b, i, n, addr);
    assert addr in b.own;
  }

  // ---------------------------------------------------------------------
  // readi

  const U32: int := 0x1_0000_0000

  // data is what a read of n bytes at off has to return
  ghost predicate ReadResult(fs: Fs, i: int, off: int, n: int, data: seq<int>) {
    && Inv(fs) && i in fs.inodes && 0 <= off && 0 <= n
    && var size := fs.inodes[i].size;
      if off > size || off + n >= U32 then data == []
      else data == Content(fs, i)[off..if off + n > size then size else off + n]
  }

  ghost predicate ReadSoFar(fs: Fs, i: int, off: int, data: seq<int>) {
    && Inv(fs) && i in fs.inodes && 0 <= off && off + |data| <= fs.inodes[i].size
    && forall x :: 0 <= x < |data| ==> data[x] == ByteAt(fs, i, off + x)
  }

  ghost predicate Reading(fs: Fs, i: int, off: int, data: seq<int>) {
    forall f :: f == fs ==> ReadSoFar(f, i, off, data)
  }

  lemma ReadStart(fs: Fs, i: int, off: int)
    requires Sound(fs) && i in fs.inodes && 0 <= off <= fs.inodes[i].size
    ensures Reading(fs, i, off, [])
  {
    assert ReadSoFar(fs, i, off, []);
  }

  // A block below the size is there: mapping it allocates nothing.
  lemma MapsNothing(fs: Fs, fs': Fs, i: int, n: int, addr: int, count: int)
    requires Mapping(fs, fs', i, n, addr) && Cost(fs, i, n, count)
    requires 0 <= n < MAXFILE && i in fs.inodes && n * BSIZE < fs.inodes[i].size
    ensures count <= 0 && addr != 0
  {
    assert Bounded(fs, i, n, count) && Mapped(fs, fs', i, n, addr);
    assert Ref(fs, Slot(i, n)) != 0;
  }

  lemma ReadChunk(fs: Fs, i: int, off: int, data: seq<int>, n: int, addr: int, more: seq<int>)
    requires Reading(fs, i, off, data) && |data| < n && i in fs.inodes && off + n <= fs.inodes[i].size
    requires Mapping(fs, fs, i, (off + |data|) / BSIZE, addr) && addr in fs.blocks && |fs.blocks[addr].bytes| == BSIZE
      && 0 <= off
    requires var at := (off + |data|) % BSIZE; more == fs.blocks[addr].bytes[at..at + Chunk(off, |data|, n)]
    ensures Reading(fs, i, off, data + more)
  {
    assert ReadSoFar(fs, i, off, data);
    assert Mapped(fs, fs, i, (off + |data|) / BSIZE, addr);
    var both := data + more;
    forall x | 0 <= x < |both| ensures both[x] == ByteAt(fs, i, off + x) {
      if x >= |data| { SameChunk(off, |data|, n, x); }
    }
    assert ReadSoFar(fs, i, off, both);
  }

  lemma ReadDone(fs: Fs, i: int, off: int, n: int, data: seq<int>)
    requires Reading(fs, i, off, data) && 0 <= n && off + n < U32 && i in fs.inodes && off <= fs.inodes[i].size
    requires |data| == if off + n > fs.inodes[i].size then fs.inodes[i].size - off else n
    ensures ReadResult(fs, i, off, n, data)
  {
    assert ReadSoFar(fs, i, off, data);
    var c := Content(fs, i);
    assert data == c[off..off + |data|] by {
      forall x | 0 <= x < |data| ensures data[x] == c[off + x] {}
    }
  }

  // ---------------------------------------------------------------------
  // writei

  ghost predicate Writing(fs0: Fs, fs: Fs, i: int, off: int, src: seq<int>, tot: int) {
    forall f :: f == fs ==> Written(fs0, f, i, off, src, tot)
  }

  lemma WritingStart(fs: Fs, i: int, off: int, src: seq<int>)
    requires Sound(fs) && i in fs.inodes && 0 <= off
    ensures Writing(fs, fs, i, off, src, 0)
  {
    WrittenStart(fs, i, off, src);
  }

  lemma WritingMapped(fs0: Fs, fs: Fs, fs': Fs, i: int, off: int, src: seq<int>, tot: int, n: int, addr: int)
    requires Writing(fs0, fs, i, off, src, tot) && Mapping(fs, fs', i, n, addr)
    ensures Writing(fs0, fs', i, off, src, tot)
  {
    assert Written(fs0, fs, i, off, src, tot) && Mapped(fs, fs', i, n, addr);
    WrittenGrown(fs0, fs, fs', i, off, src, tot);
  }

  lemma PatchedBy(b: Block, at: int, src: seq<int>, tot: int, m: int)
    requires BlockOk(b) && 0 <= tot && 0 <= m && tot + m <= |src| && 0 <= at && at + m <= BSIZE && Bytes(src)
    ensures Patched(b, Patch(b, at, src[tot..tot + m]), at, src, tot, m)
  {
    PatchOk(b, at, src[tot..tot + m]);
  }

  lemma WritingPut(fs0: Fs, a: Fs, fs: Fs, i: int, off: int, src: seq<int>, tot: int, addr: int)
    requires Writing(fs0, fs, i, off, src, tot) && 0 <= off && 0 <= tot < |src| && Bytes(src)
    requires (off + tot) / BSIZE < MAXFILE && Mapping(a, fs, i, (off + tot) / BSIZE, addr) && addr != 0
    requires addr in fs.blocks && BlockOk(fs.blocks[addr])
    ensures var m := Chunk(off, tot, |src|);
      var fs' := PutBlock(fs, addr, Patch(fs.blocks[addr], (off + tot) % BSIZE, src[tot..tot + m]));
      Writing(fs0, fs', i, off, src, tot + m) && Sound(fs')
  {
    var m := Chunk(off, tot, |src|);
    var d := Patch(fs.blocks[addr], (off + tot) % BSIZE, src[tot..tot + m]);
    PatchedBy(fs.blocks[addr], (off + tot) % BSIZE, src, tot, m);
    assert Written(fs0, fs, i, off, src, tot) && Mapped(a, fs, i, (off + tot) / BSIZE, addr);
    WrittenPut(fs0, fs, i, off, src, tot, (off + tot) / BSIZE, addr, d);
    assert Written(fs0, PutBlock(fs, addr, d), i, off, src, tot + m);
  }

  // the last block of file that [off, off+tot) reaches into, or the one before off's
  function LastBlock(off: int, tot: int): (n: int) { if tot == 0 then off / BSIZE - 1 else (off + tot - 1) / BSIZE }

  lemma GrewChunk(a: map<int, Slot>, b: map<int, Slot>, c: map<int, Slot>, i: int, off: int, tot: int, m: int, n: int)
    requires 0 <= off && 0 <= tot < n && (m == 0 || m == Chunk(off, tot, n))
    requires tot == 0 || (off + tot) % BSIZE == 0
    requires Grew(a, b, i, off / BSIZE, LastBlock(off, tot))
    requires Grew(b, c, i, (off + tot) / BSIZE, if m == 0 then (off + tot) / BSIZE - 1 else (off + tot) / BSIZE)
    ensures Grew(a, c, i, off / BSIZE, LastBlock(off, tot + m))
  {
    var at := (off + tot) / BSIZE;
    ChunkBlock(off, tot, m, n);
    GrewThen(a, b, c, i, off / BSIZE, LastBlock(off, tot), at, if m == 0 then at - 1 else at, LastBlock(off, tot + m));
  }

  lemma ChunkBlock(off: int, tot: int, m: int, n: int)
    requires 0 <= off && 0 <= tot < n && (m == 0 || m == Chunk(off, tot, n)) && (tot == 0 || (off + tot) % BSIZE == 0)
    ensures off / BSIZE <= (off + tot) / BSIZE && LastBlock(off, tot) <= LastBlock(off, tot + m)
    ensures LastBlock(off, tot + m) == if m == 0 then (off + tot) / BSIZE - 1 else (off + tot) / BSIZE
  {
  }

  // ---------------------------------------------------------------------
  // The blocks one write may touch.

  function Least(a: int, b: int): (m: int) { if a < b then a else b }

  // 1 if the first block of a write at off is only partly overwritten
  function Partial(off: int): (u: int) { if off % BSIZE != 0 then 1 else 0 }

  // k blocks of the file visited so far, all but the last up to their end
  ghost predicate Visited(off: int, tot: int, n: int, k: int) {
    && 0 <= k && (tot < n && tot == 0 ==> k == 0)
    && (tot < n && tot > 0 ==> (off + tot) % BSIZE == 0 && k == (off + tot) / BSIZE - off / BSIZE)
    && (n <= 3 * BSIZE ==> k <= 3 + Partial(off))
  }

  lemma VisitNext(off: int, tot: int, n: int, k: int)
    requires 0 <= off && 0 <= tot < n && Visited(off, tot, n, k)
    ensures Visited(off, tot + Chunk(off, tot, n), n, k + 1)
    ensures n <= 3 * BSIZE ==> k + 1 <= 3 + Partial(off)
  {
  }

  // bitmap and data blocks touched by k blocks of a write
  ghost predicate Touched(k: int, off: int, bm: set<int>, dat: set<int>, extra: int) {
    |dat| <= k && |bm| <= (if k == 0 then 0 else k - Partial(off)) + extra
  }

  lemma TouchNext(k: int, off: int, bm: set<int>, dat: set<int>, extra: int, bm': set<int>, dat': set<int>, extra': int,
      c: int)
    requires 0 <= k && Touched(k, off, bm, dat, extra) && |dat'| <= 1
    requires |bm'| <= c + (extra' - extra) && c <= if k == 0 then 1 - Partial(off) else 1
    ensures Touched(k + 1, off, bm + bm', dat + dat', extra')
  {
  }

  // The blocks allocated for the (k+1)st block of a write.
  lemma WriteCost(fs: Fs, i: int, off: int, tot: int, n: int, k: int, count: int)
    requires Sound(fs) && i in fs.inodes && Cost(fs, i, (off + tot) / BSIZE, count)
    requires 0 <= off <= fs.inodes[i].size && 0 <= tot < n && off + n <= MAXFILE * BSIZE && Visited(off, tot, n, k)
    ensures count <= (if k == 0 then 1 - Partial(off) else 1)
                   + (if (off + tot) / BSIZE >= NDIRECT && fs.inodes[i].addrs[NDIRECT] == 0 then 1 else 0)
  {
    assert Bounded(fs, i, (off + tot) / BSIZE, count);
    if off % BSIZE != 0 && tot == 0 {
      assert (off + tot) / BSIZE * BSIZE < fs.inodes[i].size;
      assert Ref(fs, Slot(i, (off + tot) / BSIZE)) != 0;
    }
  }

  lemma SameSize(fs0: Fs, fs: Fs, i: int, off: int, src: seq<int>, tot: int)
    requires Writing(fs0, fs, i, off, src, tot)
    ensures i in fs0.inodes && i in fs.inodes && fs.inodes[i].size == fs0.inodes[i].size
  {
    assert Written(fs0, fs, i, off, src, tot);
  }

  // What k blocks of a write have touched; extra counts the indirect block's bitmap block.
  ghost predicate TallyIs(off: int, tot: int, n: int, k: int, bm: set<int>, dat: set<int>, extra: int) {
    Visited(off, tot, n, k) && Touched(k, off, bm, dat, extra) && 0 <= extra <= 1
  }

  ghost predicate Tally(off: int, tot: int, n: int, k: int, bm: set<int>, dat: set<int>, extra: int) {
    forall x :: x == k ==> TallyIs(off, tot, n, x, bm, dat, extra)
  }

  lemma TallyStart(off: int, n: int)
    requires 0 <= off && 0 <= n
    ensures Tally(off, 0, n, 0, {}, {}, 0)
  {
    assert TallyIs(off, 0, n, 0, {}, {}, 0);
  }

  lemma TallyEnd(off: int, tot: int, n: int, k: int, bm: set<int>, dat: set<int>, extra: int)
    requires Tally(off, tot, n, k, bm, dat, extra)
    ensures Touched(k, off, bm, dat, 1) && (n <= 3 * BSIZE ==> k <= 3 + Partial(off))
  {
    assert TallyIs(off, tot, n, k, bm, dat, extra);
  }

  // One more block of a write, and what it may have touched.
  lemma ChunkAccount(fs0: Fs, fs: Fs, i: int, off: int, src: seq<int>, tot: int, k: int, bm: set<int>, dat: set<int>,
      extra: int, bm1: set<int>, dat1: set<int>)
    requires Writing(fs0, fs, i, off, src, tot) && Cost(fs, i, (off + tot) / BSIZE, |bm1|) && |dat1| <= 1
    requires i in fs0.inodes && 0 <= off <= fs0.inodes[i].size && 0 <= tot < |src| && off + |src| <= MAXFILE * BSIZE
    requires Tally(off, tot, |src|, k, bm, dat, extra)
    requires i in fs.inodes && |fs.inodes[i].addrs| == NDIRECT + 1 && (extra == 1 ==> fs.inodes[i].addrs[NDIRECT] != 0)
    ensures var lack := (off + tot) / BSIZE >= NDIRECT && fs.inodes[i].addrs[NDIRECT] == 0;
      Tally(off, tot + Chunk(off, tot, |src|), |src|, k + 1, bm + bm1, dat + dat1, if lack then 1 else extra)
  {
    assert TallyIs(off, tot, |src|, k, bm, dat, extra);
    var lack := (off + tot) / BSIZE >= NDIRECT && fs.inodes[i].addrs[NDIRECT] == 0;
    var c := if k == 0 then 1 - Partial(off) else 1;
    assert |bm1| <= c + (if lack then 1 else 0) by {
      assert Written(fs0, fs, i, off, src, tot);
      WriteCost(fs, i, off, tot, |src|, k, |bm1|);
    }
    TouchNext(k, off, bm, dat, extra, bm1, dat1, if lack then 1 else extra, c);
    VisitNext(off, tot, |src|, k);
    assert TallyIs(off, tot + Chunk(off, tot, |src|), |src|, k + 1, bm + bm1, dat + dat1, if lack then 1 else extra);
  }

  lemma GrewTally(a: map<int, Slot>, b: map<int, Slot>, c: map<int, Slot>, i: int, off: int, tot: int, m: int, n: int,
      k: int, bm: set<int>, dat: set<int>, extra: int)
    requires 0 <= off && 0 <= tot < n && (m == 0 || m == Chunk(off, tot, n)) && Tally(off, tot, n, k, bm, dat, extra)
    requires Grew(a, b, i, off / BSIZE, LastBlock(off, tot))
    requires Grew(b, c, i, (off + tot) / BSIZE, if m == 0 then (off + tot) / BSIZE - 1 else (off + tot) / BSIZE)
    ensures Grew(a, c, i, off / BSIZE, LastBlock(off, tot + m))
  {
    assert TallyIs(off, tot, n, k, bm, dat, extra);
    GrewChunk(a, b, c, i, off, tot, m, n);
  }

  // What a write has to do: exactly [off, off+tot) of file i is replaced by src[..tot].
  ghost predicate WriteResult(fs0: Fs, fs: Fs, i: int, off: int, src: seq<int>, tot: int) {
    && Inv(fs0) && Inv(fs) && fs.inodes.Keys == fs0.inodes.Keys && i in fs0.inodes
    && 0 <= off <= fs0.inodes[i].size && 0 <= tot <= |src|
    && Content(fs, i) == Splice(Content(fs0, i), off, src[..tot])
    && forall j :: j in fs0.inodes && j != i ==> Content(fs, j) == Content(fs0, j)
  }

  ghost predicate Wrote(fs0: Fs, fs: Fs, i: int, off: int, src: seq<int>, tot: int) {
    forall f :: f == fs ==> WriteResult(fs0, f, i, off, src, tot)
  }

  lemma WroteAll(fs0: Fs, fs: Fs, i: int, off: int, src: seq<int>, tot: int)
    requires Writing(fs0, fs, i, off, src, tot) && 0 <= off && 0 <= tot <= |src| && off + tot <= MAXFILE * BSIZE
    requires i in fs0.inodes && off <= fs0.inodes[i].size && i in fs.inodes
    ensures var fs' := SetSize(fs, i, Max(fs0.inodes[i].size, off + tot));
      Sound(fs') && Wrote(fs0, fs', i, off, src, tot)
  {
    assert Written(fs0, fs, i, off, src, tot);
    FinishContent(fs0, fs, i, off, src, tot);
    assert WriteResult(fs0, SetSize(fs, i, Max(fs0.inodes[i].size, off + tot)), i, off, src, tot);
  }

  lemma SetSame(fs: Fs, i: int)
    requires i in fs.inodes
    ensures SetSize(fs, i, fs.inodes[i].size) == fs
  {
    assert fs.inodes[i := fs.inodes[i]] == fs.inodes;
  }

  // A chunk touches at most MAXOPBLOCKS - 1 blocks besides the inode's.
  lemma TouchedAll(k: int, off: int, bm: set<int>, dat: set<int>, ind: int)
    requires Touched(k, off, bm, dat, 1) && k <= 3 + Partial(off)
    ensures |bm + dat + Known(ind)| <= MAXOPBLOCKS - 1
  {
    assert |bm + dat| <= |bm| + |dat|;
    assert |bm + dat + Known(ind)| <= |bm + dat| + 1;
  }

  lemma SpliceTwice(c: seq<int>, off: int, src: seq<int>, d: int, r: int)
    requires 0 <= off <= |c| && 0 <= d && 0 <= r && d + r <= |src|
    ensures |Splice(c, off, src[..d])| >= off + d
    ensures Splice(Splice(c, off, src[..d]), off + d, src[d..d + r]) == Splice(c, off, src[..d + r])
  {
    var one, two := Splice(c, off, src[..d]), Splice(c, off, src[..d + r]);
    var both := Splice(one, off + d, src[d..d + r]);
    assert |both| == |two|;
    forall pos | 0 <= pos < |two| ensures both[pos] == two[pos] {
      SpliceAt(c, off, src[..d + r], pos);
      SpliceAt(one, off + d, src[d..d + r], pos);
      if pos < |one| { SpliceAt(c, off, src[..d], pos); }
    }
  }

  // Two writes in a row are one write.
  lemma SplicedOn(c0: seq<int>, c1: seq<int>, c2: seq<int>, off: int, src: seq<int>, d: int, n: int, r: int)
    requires 0 <= off <= |c0| && 0 <= d && 0 <= r <= n && d + n <= |src| && c1 == Splice(c0, off, src[..d])
      && off + d <= |c1|
    requires c2 == Splice(c1, off + d, src[d..d + n][..r])
    ensures c2 == Splice(c0, off, src[..d + r])
  {
    assert src[d..d + n][..r] == src[d..d + r];
    SpliceTwice(c0, off, src, d, r);
  }

  lemma WroteTwice(fs0: Fs, fs1: Fs, fs2: Fs, i: int, off: int, src: seq<int>, d: int, n: int, r: int)
    requires Wrote(fs0, fs1, i, off, src, d) && 0 <= d && 0 <= r <= n && d + n <= |src|
    requires Wrote(fs1, fs2, i, off + d, src[d..d + n], r)
    ensures Wrote(fs0, fs2, i, off, src, d + r)
  {
    assert WriteResult(fs0, fs1, i, off, src, d);
    assert WriteResult(fs1, fs2, i, off + d, src[d..d + n], r);
    assert forall j :: j in fs0.inodes && j != i ==> Content(fs2, j) == Content(fs0, j);
    SplicedOn(Content(fs0, i), Content(fs1, i), Content(fs2, i), off, src, d, n, r);
    assert WriteResult(fs0, fs2, i, off, src, d + r);
  }

  lemma WroteNone(fs: Fs, i: int, off: int, src: seq<int>)
    requires Sound(fs) && i in fs.inodes && 0 <= off <= fs.inodes[i].size
    ensures Wrote(fs, fs, i, off, src, 0)
  {
    var c := Content(fs, i);
    assert Splice(c, off, src[..0]) == c;
    assert WriteResult(fs, fs, i, off, src, 0);
  }

  lemma WroteSize(fs0: Fs, fs: Fs, i: int, off: int, src: seq<int>, d: int)
    requires Wrote(fs0, fs, i, off, src, d)
    ensures i in fs.inodes && 0 <= off && 0 <= d && off + d <= fs.inodes[i].size <= MAXFILE * BSIZE
  {
    assert WriteResult(fs0, fs, i, off, src, d);
    assert |Content(fs, i)| == fs.inodes[i].size;
  }
}
