/**
 What a loop of bmap and block writes has done to the files, step by step.
 */
module FsWrite {
  import opened FsBlock
  import opened FsModel

  // fs' differs from fs only in blocks attached to slots that had none, all of file i.
  ghost predicate Grown(fs: Fs, fs': Fs, i: int) {
    && Inv(fs) && Inv(fs') && i in fs.inodes
    && fs'.start == fs.start && |fs'.bits| == |fs.bits| && fs'.inodes.Keys == fs.inodes.Keys
    && (forall j :: j in fs.inodes ==>
      fs'.inodes[j].size == fs.inodes[j].size && (j != i ==> fs'.inodes[j] == fs.inodes[j]))
    && (forall t :: ValidSlot(fs, t) && t.n >= 0 && Ref(fs, t) != 0 ==> SameBlock(fs, fs', t))
  }

  ghost predicate SameBlock(fs: Fs, fs': Fs, t: Slot)
    requires Shape(fs) && Shape(fs')
  {
    ValidSlot(fs, t) && ValidSlot(fs', t) && Ref(fs', t) == Ref(fs, t)
    && Ref(fs, t) in fs.blocks && Ref(fs, t) in fs'.blocks && fs'.blocks[Ref(fs, t)] == fs.blocks[Ref(fs, t)]
  }

  lemma GrownSelf(fs: Fs, i: int)
    requires Inv(fs) && i in fs.inodes
    ensures Grown(fs, fs, i)
  {
    forall t | ValidSlot(fs, t) && t.n >= 0 && Ref(fs, t) != 0 ensures SameBlock(fs, fs, t) {
      assert Ref(fs, t) in fs.own;
    }
  }

  lemma GrownTrans(a: Fs, b: Fs, c: Fs, i: int)
    requires Grown(a, b, i) && Grown(b, c, i)
    ensures Grown(a, c, i)
  {
    forall t | ValidSlot(a, t) && t.n >= 0 && Ref(a, t) != 0 ensures SameBlock(a, c, t) {
      assert SameBlock(a, b, t) && SameBlock(b, c, t);
    }
  }

  lemma AttachGrown(fs: Fs, s: Slot, b: int)
    requires Inv(fs) && CanAttach(fs, s, b)
    ensures Grown(fs, Attach(fs, s, b), s.ino)
  {
    var fs' := Attach(fs, s, b);
    AttachInv(fs, s, b);
    forall t | ValidSlot(fs, t) && t.n >= 0 && Ref(fs, t) != 0 ensures SameBlock(fs, fs', t) {
      AttachRef(fs, s, b, t);
      assert Ref(fs, t) in fs.own && fs.own[Ref(fs, t)] == t;
      if s.n >= NDIRECT {
        assert ValidSlot(fs, Slot(s.ino, -1)) && Ref(fs, Slot(s.ino, -1)) == fs.inodes[s.ino].addrs[NDIRECT];
      }
    }
  }

  // ---------------------------------------------------------------------
  // A write in progress.

  ghost predicate Covers(off: int, tot: int, pos: int) { off <= pos < off + tot }

  // Block n of file j is as in fs0 except where [off, off+tot) of file i was written.
  ghost predicate Kept(fs0: Fs, fs: Fs, i: int, off: int, tot: int, t: Slot)
    requires Shape(fs0) && Shape(fs)
  {
    && ValidSlot(fs0, t) && ValidSlot(fs, t) && Ref(fs, t) == Ref(fs0, t)
    && Ref(fs0, t) in fs0.blocks && Ref(fs0, t) in fs.blocks
    && forall x :: 0 <= x < BSIZE && !(t.ino == i && Covers(off, tot, t.n * BSIZE + x)) ==>
         fs.blocks[Ref(fs0, t)].bytes[x] == fs0.blocks[Ref(fs0, t)].bytes[x]
  }

  // The bytes src[..tot] are in place at off.
  ghost predicate Placed(fs: Fs, i: int, off: int, src: seq<int>, x: int)
    requires Shape(fs) && 0 <= x < |src|
  {
    var t := Slot(i, (off + x) / BSIZE);
    ValidSlot(fs, t) && Ref(fs, t) != 0 && Ref(fs, t) in fs.blocks
    && fs.blocks[Ref(fs, t)].bytes[(off + x) % BSIZE] == src[x]
  }

  ghost predicate Written(fs0: Fs, fs: Fs, i: int, off: int, src: seq<int>, tot: int) {
    && Inv(fs0) && Inv(fs) && i in fs0.inodes && 0 <= tot <= |src| && 0 <= off
    && fs.start == fs0.start && |fs.bits| == |fs0.bits| && fs.inodes.Keys == fs0.inodes.Keys
    && (forall j :: j in fs0.inodes ==>
      fs.inodes[j].size == fs0.inodes[j].size && (j != i ==> fs.inodes[j] == fs0.inodes[j]))
    && (forall t :: ValidSlot(fs0, t) && t.n >= 0 && Ref(fs0, t) != 0 ==> Kept(fs0, fs, i, off, tot, t))
    && (forall x :: 0 <= x < tot ==> Placed(fs, i, off, src, x))
  }

  lemma WrittenStart(fs: Fs, i: int, off: int, src: seq<int>)
    requires Inv(fs) && i in fs.inodes && 0 <= off
    ensures Written(fs, fs, i, off, src, 0)
  {
    forall t | ValidSlot(fs, t) && t.n >= 0 && Ref(fs, t) != 0 ensures Kept(fs, fs, i, off, 0, t) {
      assert Ref(fs, t) in fs.own;
    }
  }

  lemma WrittenGrown(fs0: Fs, fs: Fs, fs': Fs, i: int, off: int, src: seq<int>, tot: int)
    requires Written(fs0, fs, i, off, src, tot) && Grown(fs, fs', i)
    ensures Written(fs0, fs', i, off, src, tot)
  {
    forall t | ValidSlot(fs0, t) && t.n >= 0 && Ref(fs0, t) != 0 ensures Kept(fs0, fs', i, off, tot, t) {
      assert Kept(fs0, fs, i, off, tot, t);
      assert SameBlock(fs, fs', t);
    }
    forall x | 0 <= x < tot ensures Placed(fs', i, off, src, x) {
      assert Placed(fs, i, off, src, x);
      assert SameBlock(fs, fs', Slot(i, (off + x) / BSIZE));
    }
  }

  // ---------------------------------------------------------------------
  // One block of the write.

  ghost predicate Bytes(src: seq<int>) { forall x :: 0 <= x < |src| ==> 0 <= src[x] < 256 }

  lemma PatchOk(b: Block, at: int, data: seq<int>)
    requires BlockOk(b) && 0 <= at && at + |data| <= BSIZE && Bytes(data)
    ensures BlockOk(Patch(b, at, data))
    ensures forall x :: 0 <= x < BSIZE ==>
      Patch(b, at, data).bytes[x] == if at <= x < at + |data| then data[x - at] else b.bytes[x]
  {
  }

  // the chunk of the write that falls into the block at off+tot
  function Chunk(off: int, tot: int, n: int): (m: int)
    requires 0 <= off && 0 <= tot < n
    ensures 0 < m <= n - tot && (off + tot) % BSIZE + m <= BSIZE
    ensures m == n - tot || (off + tot + m) % BSIZE == 0
  {
    if n - tot < BSIZE - (off + tot) % BSIZE then n - tot else BSIZE - (off + tot) % BSIZE
  }

  lemma SameChunk(off: int, tot: int, n: int, x: int)
    requires 0 <= off && 0 <= tot < n && tot <= x < tot + Chunk(off, tot, n)
    ensures (off + x) / BSIZE == (off + tot) / BSIZE
    ensures (off + x) % BSIZE == (off + tot) % BSIZE + (x - tot)
  {
  }

  // d is block b with src[tot..tot+m] copied to offset at
  ghost predicate Patched(b: Block, d: Block, at: int, src: seq<int>, tot: int, m: int)
    requires 0 <= tot && 0 <= m && tot + m <= |src|
  {
    && BlockOk(b) && BlockOk(d) && 0 <= at && at + m <= BSIZE
    && (forall y :: 0 <= y < BSIZE && !(at <= y < at + m) ==> d.bytes[y] == b.bytes[y])
    && (forall y :: at <= y < at + m ==> d.bytes[y] == src[tot + (y - at)])
  }

  // Where the next chunk goes: block n of file i, currently block b of the disk.
  ghost predicate Target(fs: Fs, i: int, off: int, src: seq<int>, tot: int, n: int, b: int) {
    && Inv(fs) && i in fs.inodes && 0 <= off && 0 <= tot < |src|
    && n == (off + tot) / BSIZE && n < MAXFILE && b == Ref(fs, Slot(i, n)) && b != 0
  }

  lemma ChunkPlacedNew(fs: Fs, i: int, off: int, src: seq<int>, tot: int, n: int, b: int, d: Block, x: int)
    requires Target(fs, i, off, src, tot, n, b) && b in fs.blocks
    requires Patched(fs.blocks[b], d, (off + tot) % BSIZE, src, tot, Chunk(off, tot, |src|))
    requires tot <= x < tot + Chunk(off, tot, |src|)
    ensures Shape(PutBlock(fs, b, d)) && Placed(PutBlock(fs, b, d), i, off, src, x)
  {
    PutRef(fs, i, n, d, Slot(i, n));
    SameChunk(off, tot, |src|, x);
  }

  lemma ChunkPlacedOld(fs: Fs, i: int, off: int, src: seq<int>, tot: int, n: int, b: int, d: Block, x: int)
    requires Target(fs, i, off, src, tot, n, b) && b in fs.blocks
    requires Patched(fs.blocks[b], d, (off + tot) % BSIZE, src, tot, Chunk(off, tot, |src|))
    requires 0 <= x < tot && Placed(fs, i, off, src, x)
    ensures Shape(PutBlock(fs, b, d)) && Placed(PutBlock(fs, b, d), i, off, src, x)
  {
    var t := Slot(i, (off + x) / BSIZE);
    PutRef(fs, i, n, d, t);
    if t.n == n {
      assert (off + x) % BSIZE < (off + tot) % BSIZE;
    } else {
      assert fs.own[b] == Slot(i, n) && fs.own[Ref(fs, t)] == t;
    }
  }

  lemma ChunkKept(fs0: Fs, fs: Fs, i: int, off: int, src: seq<int>, tot: int, n: int, b: int, d: Block, t: Slot)
    requires Target(fs, i, off, src, tot, n, b) && b in fs.blocks && Inv(fs0)
    requires Patched(fs.blocks[b], d, (off + tot) % BSIZE, src, tot, Chunk(off, tot, |src|))
    requires ValidSlot(fs0, t) && t.n >= 0 && Ref(fs0, t) != 0 && Kept(fs0, fs, i, off, tot, t)
    ensures Shape(PutBlock(fs, b, d)) && Kept(fs0, PutBlock(fs, b, d), i, off, tot + Chunk(off, tot, |src|), t)
  {
    PutRef(fs, i, n, d, t);
    assert fs.own[b] == Slot(i, n) && fs.own[Ref(fs, t)] == t;
    var m := Chunk(off, tot, |src|);
    forall x | 0 <= x < BSIZE && !(t.ino == i && Covers(off, tot + m, t.n * BSIZE + x))
      ensures PutBlock(fs, b, d).blocks[Ref(fs0, t)].bytes[x] == fs0.blocks[Ref(fs0, t)].bytes[x]
    {
      assert !(t.ino == i && Covers(off, tot, t.n * BSIZE + x));
    }
  }

  lemma WrittenPut(fs0: Fs, fs: Fs, i: int, off: int, src: seq<int>, tot: int, n: int, b: int, d: Block)
    requires Written(fs0, fs, i, off, src, tot) && Target(fs, i, off, src, tot, n, b) && b in fs.blocks
    requires Patched(fs.blocks[b], d, (off + tot) % BSIZE, src, tot, Chunk(off, tot, |src|))
    ensures Written(fs0, PutBlock(fs, b, d), i, off, src, tot + Chunk(off, tot, |src|))
  {
    var fs', m := PutBlock(fs, b, d), Chunk(off, tot, |src|);
    PutInv(fs, i, n, d);
    forall t | ValidSlot(fs0, t) && t.n >= 0 && Ref(fs0, t) != 0 ensures Kept(fs0, fs', i, off, tot + m, t) {
      assert Kept(fs0, fs, i, off, tot, t);
      ChunkKept(fs0, fs, i, off, src, tot, n, b, d, t);
    }
    forall x | 0 <= x < tot + m ensures Placed(fs', i, off, src, x) {
      if x < tot {
        assert Placed(fs, i, off, src, x);
        ChunkPlacedOld(fs, i, off, src, tot, n, b, d, x);
      } else {
        ChunkPlacedNew(fs, i, off, src, tot, n, b, d, x);
      }
    }
  }

  // ---------------------------------------------------------------------
  // The end of the write: the size is set.

  // c with data written over it at off, growing if need be
  function Splice(c: seq<int>, off: int, data: seq<int>): (r: seq<int>)
    requires 0 <= off <= |c|
  {
    c[..off] + data + if off + |data| < |c| then c[off + |data|..] else []
  }

  function Max(a: int, b: int): (m: int) { if a > b then a else b }

  ghost function SetSize(fs: Fs, i: int, size: int): (fs': Fs)
    requires i in fs.inodes
  {
    fs.(inodes := fs.inodes[i := fs.inodes[i].(size := size)])
  }

  lemma SizeRef(fs: Fs, i: int, size: int, t: Slot)
    requires Shape(fs) && i in fs.inodes && 0 <= size <= MAXFILE * BSIZE && ValidSlot(fs, t)
    ensures Shape(SetSize(fs, i, size)) && ValidSlot(SetSize(fs, i, size), t)
      && Ref(SetSize(fs, i, size), t) == Ref(fs, t)
  {
  }

  lemma SizeOwned(fs: Fs, i: int, size: int)
    requires Owned(fs) && i in fs.inodes && 0 <= size <= MAXFILE * BSIZE
    ensures Owned(SetSize(fs, i, size))
  {
    var fs' := SetSize(fs, i, size);
    assert Shape(fs') by { SizeRef(fs, i, size, Slot(i, -1)); }
    forall t | ValidSlot(fs', t) ensures Ref(fs', t) == Ref(fs, t) { SizeRef(fs, i, size, t); }
  }

  lemma FinishInv(fs0: Fs, fs: Fs, i: int, off: int, src: seq<int>, tot: int)
    requires Written(fs0, fs, i, off, src, tot) && off <= fs0.inodes[i].size && off + tot <= MAXFILE * BSIZE
    ensures Inv(SetSize(fs, i, Max(fs0.inodes[i].size, off + tot)))
  {
    var size := Max(fs0.inodes[i].size, off + tot);
    var fs' := SetSize(fs, i, size);
    SizeOwned(fs, i, size);
    forall j, n | j in fs'.inodes && 0 <= n < MAXFILE && n * BSIZE < fs'.inodes[j].size
      ensures Ref(fs', Slot(j, n)) != 0
    {
      SizeRef(fs, i, size, Slot(j, n));
      if j == i && n * BSIZE >= fs0.inodes[i].size {
        NewBlock(fs0, fs, i, off, src, tot, n);
      } else {
        assert Ref(fs, Slot(j, n)) != 0;
      }
    }
  }

  // A block behind the old end was written.
  lemma NewBlock(fs0: Fs, fs: Fs, i: int, off: int, src: seq<int>, tot: int, n: int)
    requires Written(fs0, fs, i, off, src, tot) && off <= fs0.inodes[i].size <= n * BSIZE < off + tot
      && 0 <= n < MAXFILE
    ensures Ref(fs, Slot(i, n)) != 0
  {
    assert Placed(fs, i, off, src, n * BSIZE - off);
    assert (off + (n * BSIZE - off)) / BSIZE == n;
  }

  // The byte at pos of file j when the write is done.
  lemma FinishByte(fs0: Fs, fs: Fs, i: int, off: int, src: seq<int>, tot: int, j: int, pos: int)
    requires Written(fs0, fs, i, off, src, tot) && off <= fs0.inodes[i].size && off + tot <= MAXFILE * BSIZE
    requires Inv(SetSize(fs, i, Max(fs0.inodes[i].size, off + tot)))
    requires j in fs0.inodes && 0 <= pos < SetSize(fs, i, Max(fs0.inodes[i].size, off + tot)).inodes[j].size
    ensures !(j == i && Covers(off, tot, pos)) ==> pos < fs0.inodes[j].size
    ensures ByteAt(SetSize(fs, i, Max(fs0.inodes[i].size, off + tot)), j, pos)
      == if j == i && Covers(off, tot, pos) then src[pos - off] else ByteAt(fs0, j, pos)
  {
    var size := Max(fs0.inodes[i].size, off + tot);
    var t := Slot(j, pos / BSIZE);
    SizeRef(fs, i, size, t);
    if j == i && Covers(off, tot, pos) {
      assert Placed(fs, i, off, src, pos - off);
      assert off + (pos - off) == pos;
    } else {
      assert Ref(fs0, t) != 0;
      assert Kept(fs0, fs, i, off, tot, t);
      assert t.n * BSIZE + pos % BSIZE == pos;
    }
  }

  lemma FinishOwn(fs0: Fs, fs: Fs, i: int, off: int, src: seq<int>, tot: int)
    requires Written(fs0, fs, i, off, src, tot) && off <= fs0.inodes[i].size && off + tot <= MAXFILE * BSIZE
    requires Inv(SetSize(fs, i, Max(fs0.inodes[i].size, off + tot)))
    ensures Content(SetSize(fs, i, Max(fs0.inodes[i].size, off + tot)), i) == Splice(Content(fs0, i), off, src[..tot])
  {
    var c := Content(SetSize(fs, i, Max(fs0.inodes[i].size, off + tot)), i);
    var c0 := Content(fs0, i);
    var r := Splice(c0, off, src[..tot]);
    assert |c| == |r|;
    forall pos | 0 <= pos < |c| ensures c[pos] == r[pos] {
      FinishByte(fs0, fs, i, off, src, tot, i, pos);
      SpliceAt(c0, off, src[..tot], pos);
    }
  }

  lemma SpliceAt(c: seq<int>, off: int, data: seq<int>, pos: int)
    requires 0 <= off <= |c| && 0 <= pos < |Splice(c, off, data)|
    ensures Splice(c, off, data)[pos] == if Covers(off, |data|, pos) then data[pos - off] else c[pos]
  {
  }

  lemma FinishOther(fs0: Fs, fs: Fs, i: int, off: int, src: seq<int>, tot: int, j: int)
    requires Written(fs0, fs, i, off, src, tot) && off <= fs0.inodes[i].size && off + tot <= MAXFILE * BSIZE
    requires Inv(SetSize(fs, i, Max(fs0.inodes[i].size, off + tot))) && j in fs0.inodes && j != i
    ensures Content(SetSize(fs, i, Max(fs0.inodes[i].size, off + tot)), j) == Content(fs0, j)
  {
    var c, c0 := Content(SetSize(fs, i, Max(fs0.inodes[i].size, off + tot)), j), Content(fs0, j);
    forall pos | 0 <= pos < |c0| ensures c[pos] == c0[pos] { FinishByte(fs0, fs, i, off, src, tot, j, pos); }
  }

  // writei as a whole: exactly [off, off+tot) of file i is replaced.
  lemma FinishContent(fs0: Fs, fs: Fs, i: int, off: int, src: seq<int>, tot: int)
    requires Written(fs0, fs, i, off, src, tot) && off <= fs0.inodes[i].size && off + tot <= MAXFILE * BSIZE
    ensures var fs' := SetSize(fs, i, Max(fs0.inodes[i].size, off + tot));
      && Inv(fs') && fs'.inodes.Keys == fs0.inodes.Keys
      && Content(fs', i) == Splice(Content(fs0, i), off, src[..tot])
      && (forall j :: j in fs0.inodes && j != i ==> Content(fs', j) == Content(fs0, j))
  {
    var fs' := SetSize(fs, i, Max(fs0.inodes[i].size, off + tot));
    FinishInv(fs0, fs, i, off, src, tot);
    FinishOwn(fs0, fs, i, off, src, tot);
    forall j | j in fs0.inodes && j != i ensures Content(fs', j) == Content(fs0, j) {
      FinishOther(fs0, fs, i, off, src, tot, j);
    }
  }
}
