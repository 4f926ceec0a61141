/**
 fs.c's inode content layer and filewrite, as code over the disk's blocks, the
 bitmap and the inodes.
 */
module FsCode {
  import opened Params
  import opened FsBlock
  import opened FsModel
  import opened FsWrite
  import opened FsSteps
  import opened FsTrunc

  function EmptyInode(): (ip: Inode)
    ensures |ip.addrs| == NDIRECT + 1 && ip.size == 0
  {
    Inode(seq(NDIRECT + 1, _ => 0), 0)
  }

  lemma EmptySound(fs: Fs)
    requires 0 < fs.start <= |fs.bits| < U32 && fs.own == map[]
      && forall b :: 0 <= b < |fs.bits| ==> (fs.bits[b] <==> b < fs.start)
    requires (forall b :: 0 <= b < |fs.bits| ==> b in fs.blocks) && forall b :: b in fs.blocks ==> BlockOk(fs.blocks[b])
    requires forall i :: i in fs.inodes ==> fs.inodes[i] == EmptyInode()
    ensures Sound(fs)
  {
    forall i | i in fs.inodes ensures fs.inodes[i].size == 0 && |fs.inodes[i].addrs| == NDIRECT + 1 {}
    forall i, n | i in fs.inodes && 0 <= n <= NDIRECT ensures fs.inodes[i].addrs[n] == 0 {}
    assert Shape(fs);
    forall t | ValidSlot(fs, t) ensures Ref(fs, t) == 0 {}
  }

  // Accounts of a write: blocks of the file visited, bitmap and data blocks touched, and whether
  // the indirect block was made.
  datatype Acc = Acc(k: int, bm: set<int>, dat: set<int>, extra: int)

  class FileSystem {
    const start: int             // first data block
    const bmapstart: int         // first bitmap block
    const inodestart: int        // first inode block
    var bits: seq<bool>
    var blocks: map<int, Block>
    var inodes: map<int, Inode>

    ghost var own: map<int, Slot>
    ghost var dirty: set<int>    // blocks passed to log_write

    ghost function Now(): (fs: Fs)
      reads this`bits, this`blocks, this`inodes, this`own
    {
      Fs(start, bits, blocks, inodes, own)
    }

    // the block that holds inode i
    function IBlock(i: int): (r: int) { i / IPB + inodestart }

    // it comes before the bitmap blocks
    predicate Laid(i: int) { IBlock(i) < bmapstart }

    ghost predicate Valid()
      reads this`bits, this`blocks, this`inodes, this`own
    {
      && (forall fs :: fs == Now() ==> Sound(fs))
      && forall i :: i in inodes ==> Laid(i)
    }

    // a disk with empty files, whatever its blocks hold
    constructor (start: int, size: int, bmapstart: int, inodestart: int, inums: set<int>, blocks: map<int, Block>)
      requires 0 < start <= size < U32 && (forall b :: 0 <= b < size ==> b in blocks)
        && forall b :: b in blocks ==> BlockOk(blocks[b])
      requires forall i :: i in inums ==> i / IPB + inodestart < bmapstart
      ensures Valid() && inodes.Keys == inums && forall i :: i in inodes ==> inodes[i] == EmptyInode()
    {
      this.start, this.bmapstart, this.inodestart, this.blocks := start, bmapstart, inodestart, blocks;
      bits := seq(size, b => b < start);
      inodes := map i | i in inums :: EmptyInode();
      own, dirty := map[], {};
      new;
      EmptySound(Now());
    }

    // any disk in order, with nothing logged yet
    constructor Mount(fs: Fs, bmapstart: int, inodestart: int)
      requires Inv(fs) && forall i :: i in fs.inodes ==> i / IPB + inodestart < bmapstart
      ensures Valid() && Now() == fs && dirty == {} && this.bmapstart == bmapstart && this.inodestart == inodestart
    {
      start, this.bmapstart, this.inodestart := fs.start, bmapstart, inodestart;
      bits, blocks, inodes, own, dirty := fs.bits, fs.blocks, fs.inodes, fs.own, {};
      new;
      assert Now() == fs;
    }

    // no block is free
    ghost predicate Full()
      reads this`bits
    {
      forall b :: 0 <= b < |bits| ==> bits[b]
    }

    function BBlock(b: int): (r: int) { BitmapBlock(b, bmapstart) }

    // balloc: the first free block, marked and zeroed; 0 if the disk is full.
    method Balloc(ghost s: Slot) returns (r: int)
      requires 0 < start <= |bits| && (forall b :: 0 <= b < start ==> bits[b])
      modifies this`bits, this`blocks, this`own, this`dirty
      ensures r == 0 ==> Now() == old(Now()) && dirty == old(dirty) && Full()
      ensures r != 0 ==> FreeBlock(old(Now()), r) && (forall b :: 0 <= b < r ==> old(bits)[b])
      ensures r != 0 ==> Now() == Claim(old(Now()), r, s) && dirty == old(dirty) + {BBlock(r), r}
      ensures r != 0 ==> bits == old(bits)[r := true] && blocks == old(blocks)[r := Block(seq(BSIZE, _ => 0))]
    {
      var b := 0;
      while b < |bits|
        invariant 0 <= b && forall c :: 0 <= c < b && c < |bits| ==> bits[c]
        invariant Now() == old(Now()) && dirty == old(dirty)
      {
        var bi := 0;
        while bi < BPB && b + bi < |bits|
          invariant 0 <= bi <= BPB && (forall c :: 0 <= c < b + bi && c < |bits| ==> bits[c])
          invariant Now() == old(Now()) && dirty == old(dirty)
        {
          if !bits[b + bi] {
            r := b + bi;
            bits := bits[r := true];
            own := own[r := s];
            dirty := dirty + {BBlock(r)};
            blocks := blocks[r := Zero()];
            dirty := dirty + {r};
            return;
          }
          bi := bi + 1;
        }
        b := b + BPB;
      }
      r := 0;
    }

    lemma InodeFacts(i: int)
      requires Valid() && i in inodes
      ensures |inodes[i].addrs| == NDIRECT + 1 && 0 <= inodes[i].size <= MAXFILE * BSIZE
      ensures 0 < start <= |bits| && (forall b :: 0 <= b < start ==> bits[b])
      ensures forall n :: 0 <= n <= NDIRECT ==> 0 <= inodes[i].addrs[n] < |bits| && inodes[i].addrs[n] in blocks
    {
      assert Sound(Now());
    }

    // addrs[n]: a direct block for 0 <= n < NDIRECT, the indirect block for n == NDIRECT;
    // allocated if there is none yet
    method BmapAddr(i: int, n: int) returns (addr: int, ghost bm: set<int>)
      requires Valid() && i in inodes && 0 <= n <= NDIRECT
      modifies this`bits, this`blocks, this`inodes, this`own, this`dirty
      ensures Valid() && Mapping(old(Now()), Now(), i, if n == NDIRECT then -1 else n, addr)
      ensures i in inodes && |inodes[i].addrs| == |old(inodes)[i].addrs| == NDIRECT + 1
        && inodes[i].addrs == old(inodes)[i].addrs[n := addr]
      ensures dirty <= old(dirty) + bm + Known(addr) && |bm| <= (if old(inodes)[i].addrs[n] == 0 then 1 else 0)
      ensures bm == {} ==> Now() == old(Now()) && dirty == old(dirty)
      ensures old(dirty) <= dirty && Logged(old(Now()), Now(), bmapstart, dirty)
      ensures addr == 0 ==> bm == {}
      ensures Grew(old(own), own, i, n, if n == NDIRECT || addr == 0 then n - 1 else n)
      ensures addr == 0 ==> Full()
    {
      InodeFacts(i);
      ghost var s := Slot(i, if n == NDIRECT then -1 else n);
      ghost var a := Now();
      assert Sound(a);
      bm := {};
      addr := inodes[i].addrs[n];
      LoggedNone(a, bmapstart, dirty);
      GrewNone(own, i, n, if n == NDIRECT || addr == 0 then n - 1 else n);
      if addr == 0 {
        addr := Balloc(s);
        if addr == 0 {
          MappingSelf(a, i, s.n);
          return;
        }
        bm := {BBlock(addr)};
        LoggedClaim(a, addr, s, bmapstart, dirty);
        LoggedInodes(a, Now(), Attach(a, s, addr), bmapstart, dirty);
        inodes := inodes[i := inodes[i].(addrs := inodes[i].addrs[n := addr])];
        MappingAttach(a, i, s.n, addr);
        GrewOne(a.own, addr, i, s.n, n, if n == NDIRECT then n - 1 else n);
      } else {
        MappingSelf(a, i, s.n);
      }
    }

    // a[k] of the indirect block, allocated if there is none yet
    method BmapEntry(i: int, ind: int, k: int) returns (addr: int, ghost bm: set<int>)
      requires Valid() && i in inodes && 0 <= k < NINDIRECT && |inodes[i].addrs| == NDIRECT + 1
      requires ind == inodes[i].addrs[NDIRECT] && ind != 0
      modifies this`bits, this`blocks, this`inodes, this`own, this`dirty
      ensures Valid() && Mapping(old(Now()), Now(), i, NDIRECT + k, addr) && inodes == old(inodes)
      ensures ind in old(blocks) && |old(blocks)[ind].bytes| == BSIZE
      ensures dirty <= old(dirty) + bm + Known(addr) + {ind}
        && |bm| <= (if Word(old(blocks)[ind], k) == 0 then 1 else 0)
      ensures bm == {} ==> Now() == old(Now()) && dirty == old(dirty)
      ensures old(dirty) <= dirty && Logged(old(Now()), Now(), bmapstart, dirty)
      ensures addr == 0 ==> Full()
      ensures Grew(old(own), own, i, NDIRECT + k, if addr == 0 then NDIRECT + k - 1 else NDIRECT + k)
    {
      InodeFacts(i);
      ghost var s := Slot(i, NDIRECT + k);
      ghost var a := Now();
      assert Sound(a);
      bm := {};
      addr := Word(blocks[ind], k);
      LoggedNone(a, bmapstart, dirty);
      GrewNone(own, i, NDIRECT + k, if addr == 0 then NDIRECT + k - 1 else NDIRECT + k);
      if addr == 0 {
        addr := Balloc(s);
        if addr == 0 {
          MappingSelf(a, i, s.n);
          return;
        }
        bm := {BBlock(addr)};
        assert ind != addr by { IndirectApart(a, i, addr); }
        LoggedClaim(a, addr, s, bmapstart, dirty);
        LoggedPut(a, Now(), Attach(a, s, addr), ind, bmapstart, dirty, dirty + {ind});
        blocks := blocks[ind := SetWord(blocks[ind], k, addr)];
        dirty := dirty + {ind};
        MappingAttach(a, i, s.n, addr);
        GrewOne(a.own, addr, i, s.n, s.n, s.n);
        assert Now() == Attach(a, s, addr);
      } else {
        MappingSelf(a, i, s.n);
      }
    }

    lemma NoIndirect(i: int, n: int)
      requires Valid() && i in inodes && |inodes[i].addrs| == NDIRECT + 1 && inodes[i].addrs[NDIRECT] == 0
      requires NDIRECT <= n < MAXFILE
      ensures Mapping(Now(), Now(), i, n, 0) && Cost(Now(), i, n, 0)
    {
      assert Sound(Now());
      MappingSelf(Now(), i, n);
    }

    method BmapIndirect(i: int, n: int) returns (addr: int, ghost bm: set<int>)
      requires Valid() && i in inodes && NDIRECT <= n < MAXFILE
      modifies this`bits, this`blocks, this`inodes, this`own, this`dirty
      ensures Valid() && Mapping(old(Now()), Now(), i, n, addr) && i in inodes
      ensures |inodes[i].addrs| == |old(inodes)[i].addrs| == NDIRECT + 1
      ensures old(inodes)[i].addrs[NDIRECT] != 0 ==> inodes[i].addrs[NDIRECT] == old(inodes)[i].addrs[NDIRECT]
      ensures dirty <= old(dirty) + bm + Known(addr) + Known(inodes[i].addrs[NDIRECT])
      ensures Cost(old(Now()), i, n, |bm|)
      ensures bm == {} ==> Now() == old(Now()) && dirty == old(dirty)
      ensures old(dirty) <= dirty && Logged(old(Now()), Now(), bmapstart, dirty)
      ensures addr == 0 ==> Full()
      ensures addr != 0 ==> inodes[i].addrs[NDIRECT] != 0
      ensures Grew(old(own), own, i, n, if addr == 0 then n - 1 else n)
    {
      ghost var a := Now();
      var ind;
      ghost var bm1;
      ind, bm1 := BmapAddr(i, NDIRECT);
      ghost var b, d := Now(), dirty;
      if ind == 0 {
        NoIndirect(i, n);
        GrewNone(own, i, n, n - 1);
        return 0, bm1;
      }
      ghost var bm2;
      addr, bm2 := BmapEntry(i, ind, n - NDIRECT);
      assert Mapping(a, Now(), i, n, addr) by { MappingThen(a, b, Now(), i, n, ind, addr); }
      assert Grew(a.own, own, i, n, if addr == 0 then n - 1 else n) by {
        GrewWide(a.own, b.own, own, i, n, if addr == 0 then n - 1 else n);
      }
      LoggedThen(a, b, Now(), bmapstart, d, dirty);
      bm := bm1 + bm2;
      assert Cost(a, i, n, |bm|) by { CostSum(a, b, i, n, ind, bm1, bm2); }
    }

    // bmap: the address of block n of file i, allocated if there is none yet; 0 if the disk
    // is full. bm holds the bitmap blocks it touched.
    method Bmap(i: int, n: int) returns (addr: int, ghost bm: set<int>)
      requires Valid() && i in inodes && 0 <= n < MAXFILE
      modifies this`bits, this`blocks, this`inodes, this`own, this`dirty
      ensures Valid() && Mapping(old(Now()), Now(), i, n, addr) && i in inodes
      ensures |inodes[i].addrs| == |old(inodes)[i].addrs| == NDIRECT + 1
      ensures old(inodes)[i].addrs[NDIRECT] != 0 ==> inodes[i].addrs[NDIRECT] == old(inodes)[i].addrs[NDIRECT]
      ensures dirty <= old(dirty) + bm + Known(addr) + Known(inodes[i].addrs[NDIRECT])
      ensures Cost(old(Now()), i, n, |bm|)
      ensures bm == {} ==> Now() == old(Now()) && dirty == old(dirty)
      ensures old(dirty) <= dirty && Logged(old(Now()), Now(), bmapstart, dirty)
      ensures addr == 0 ==> Full()
      ensures addr != 0 && n >= NDIRECT ==> inodes[i].addrs[NDIRECT] != 0
      ensures Grew(old(own), own, i, n, if addr == 0 then n - 1 else n)
    {
      if n < NDIRECT {
        ghost var a := Now();
        addr, bm := BmapAddr(i, n);
        assert Cost(a, i, n, |bm|) by { assert Sound(a); }
      } else {
        addr, bm := BmapIndirect(i, n);
      }
    }

    // readi: exactly the bytes of the file, and nothing on the disk changes.
    method Readi(i: int, off: int, n: int) returns (data: seq<int>)
      requires Valid() && i in inodes && 0 <= off < U32 && 0 <= n < U32
      modifies this`bits, this`blocks, this`inodes, this`own, this`dirty
      ensures Now() == old(Now()) && dirty == old(dirty)
      ensures ReadResult(Now(), i, off, n, data)
    {
      InodeFacts(i);
      ghost var fs := Now();
      data := [];
      if off > inodes[i].size || (off + n) % U32 < off {
        assert Sound(fs);
        return;
      }
      var want := if off + n > inodes[i].size then inodes[i].size - off else n;
      assert Reading(fs, i, off, data) by { assert Sound(fs); ReadStart(fs, i, off); }
      while |data| < want
        invariant |data| <= want
        invariant Now() == fs && dirty == old(dirty) && Reading(fs, i, off, data)
        decreases want - |data|
      {
        var at := off + |data|;
        var addr;
        ghost var bm;
        addr, bm := Bmap(i, at / BSIZE);
        MapsNothing(fs, Now(), i, at / BSIZE, addr, |bm|);
        if addr == 0 {
          assert false;
          break;
        }
        MappingBlock(fs, fs, i, at / BSIZE, addr);
        var m := Chunk(off, |data|, want);
        var more := blocks[addr].bytes[at % BSIZE..at % BSIZE + m];
        ReadChunk(fs, i, off, data, want, addr, more);
        data := data + more;
      }
      ReadDone(fs, i, off, n, data);
    }

    // One turn of writei's loop: map the block at off + tot and copy the next part of src into it.
    method WriteBlock(i: int, off: int, src: seq<int>, tot: int, ghost fs0: Fs)
        returns (m: int, ghost bm: set<int>, ghost dat: set<int>)
      requires Valid() && i in inodes && 0 <= off && 0 <= tot < |src| && off + |src| <= MAXFILE * BSIZE && Bytes(src)
      requires Writing(fs0, Now(), i, off, src, tot)
      modifies this`bits, this`blocks, this`inodes, this`own, this`dirty
      ensures Valid() && i in inodes && Writing(fs0, Now(), i, off, src, tot + m)
      ensures |inodes[i].addrs| == |old(inodes)[i].addrs| == NDIRECT + 1
      ensures old(inodes)[i].addrs[NDIRECT] != 0 ==> inodes[i].addrs[NDIRECT] == old(inodes)[i].addrs[NDIRECT]
      ensures dirty <= old(dirty) + bm + dat + Known(inodes[i].addrs[NDIRECT])
      ensures old(dirty) <= dirty && Logged(old(Now()), Now(), bmapstart, dirty)
      ensures Cost(old(Now()), i, (off + tot) / BSIZE, |bm|) && |dat| <= 1
      ensures (m == 0 && Full()) || m == Chunk(off, tot, |src|)
      ensures m != 0 && (off + tot) / BSIZE >= NDIRECT ==> inodes[i].addrs[NDIRECT] != 0
      ensures Grew(old(own), own, i, (off + tot) / BSIZE, if m == 0 then (off + tot) / BSIZE - 1
        else (off + tot) / BSIZE)
    {
      ghost var a := Now();
      var addr;
      addr, bm := Bmap(i, (off + tot) / BSIZE);
      ghost var b, d := Now(), dirty;
      WritingMapped(fs0, a, b, i, off, src, tot, (off + tot) / BSIZE, addr);
      dat := Known(addr);
      if addr == 0 {
        return 0, bm, dat;
      }
      MappingBlock(a, b, i, (off + tot) / BSIZE, addr);
      m := Chunk(off, tot, |src|);
      WritingPut(fs0, a, b, i, off, src, tot, addr);
      blocks := blocks[addr := Patch(blocks[addr], (off + tot) % BSIZE, src[tot..tot + m])];
      dirty := dirty + {addr};
      LoggedPut(a, b, Now(), addr, bmapstart, d, dirty);
    }

    // What holds between two turns: tot bytes are written, in k blocks of the file up to reach; bm
    // and dat are the bitmap and data blocks touched.
    ghost predicate Underway(fs0: Fs, d0: set<int>, i: int, off: int, src: seq<int>, tot: int, reach: int, acc: Acc)
      reads this`bits, this`blocks, this`inodes, this`own, this`dirty
    {
      && 0 <= tot <= |src| && Valid() && i in inodes && i in fs0.inodes && 0 <= off <= fs0.inodes[i].size
      && Writing(fs0, Now(), i, off, src, tot)
      && Tally(off, reach, |src|, acc.k, acc.bm, acc.dat, acc.extra)
      && Grew(fs0.own, own, i, off / BSIZE, LastBlock(off, tot))
      && |inodes[i].addrs| == NDIRECT + 1 && (acc.extra == 1 && reach == tot ==> inodes[i].addrs[NDIRECT] != 0)
      && d0 <= dirty <= d0 + acc.bm + acc.dat + Known(inodes[i].addrs[NDIRECT])
      && Logged(fs0, Now(), bmapstart, dirty)
    }

    // One turn, with its accounts.
    method WriteTurn(i: int, off: int, src: seq<int>, tot: int, ghost fs0: Fs, ghost d0: set<int>, ghost acc: Acc)
        returns (m: int, ghost acc': Acc)
      requires Underway(fs0, d0, i, off, src, tot, tot, acc) && tot < |src|
      requires off + |src| <= MAXFILE * BSIZE && Bytes(src)
      modifies this`bits, this`blocks, this`inodes, this`own, this`dirty
      ensures (m == 0 && Full()) || m == Chunk(off, tot, |src|)
      ensures Underway(fs0, d0, i, off, src, tot + m, tot + Chunk(off, tot, |src|), acc')
    {
      ghost var fs, d := Now(), dirty;
      ghost var lack := (off + tot) / BSIZE >= NDIRECT && inodes[i].addrs[NDIRECT] == 0;
      ghost var bm, dat;
      m, bm, dat := WriteBlock(i, off, src, tot, fs0);
      LoggedThen(fs0, fs, Now(), bmapstart, d, dirty);
      ChunkAccount(fs0, fs, i, off, src, tot, acc.k, acc.bm, acc.dat, acc.extra, bm, dat);
      GrewTally(fs0.own, fs.own, own, i, off, tot, m, |src|, acc.k, acc.bm, acc.dat, acc.extra);
      acc' := Acc(acc.k + 1, acc.bm + bm, acc.dat + dat, if lack then 1 else acc.extra);
    }

    // writei's loop; k counts the blocks of the file it visits.
    method WriteLoop(i: int, off: int, src: seq<int>)
        returns (tot: int, ghost k: int, ghost bm: set<int>, ghost dat: set<int>)
      requires Valid() && i in inodes && 0 <= off <= inodes[i].size && off + |src| <= MAXFILE * BSIZE && Bytes(src)
      modifies this`bits, this`blocks, this`inodes, this`own, this`dirty
      ensures Valid() && i in inodes && 0 <= tot <= |src| && Writing(old(Now()), Now(), i, off, src, tot)
      ensures tot < |src| ==> Full()
      ensures |inodes[i].addrs| == NDIRECT + 1 && dirty <= old(dirty) + bm + dat + Known(inodes[i].addrs[NDIRECT])
      ensures old(dirty) <= dirty && Logged(old(Now()), Now(), bmapstart, dirty)
      ensures Touched(k, off, bm, dat, 1) && (|src| <= 3 * BSIZE ==> k <= 3 + Partial(off))
      ensures Grew(old(own), own, i, off / BSIZE, LastBlock(off, tot))
    {
      ghost var fs0, d0 := Now(), dirty;
      WritingBegins(i, off, src);
      InodeFacts(i);
      tot := 0;
      LoggedNone(fs0, bmapstart, dirty);
      GrewNone(own, i, off / BSIZE, LastBlock(off, 0));
      TallyStart(off, |src|);
      ghost var acc, reach := Acc(0, {}, {}, 0), 0;
      while tot < |src|
        invariant Underway(fs0, d0, i, off, src, tot, reach, acc) && reach == tot
      {
        reach := tot + Chunk(off, tot, |src|);
        var m;
        m, acc := WriteTurn(i, off, src, tot, fs0, d0, acc);
        if m == 0 {
          break;
        }
        tot := tot + m;
      }
      k, bm, dat := acc.k, acc.bm, acc.dat;
      TallyEnd(off, reach, |src|, k, bm, dat, acc.extra);
    }

    lemma WritingBegins(i: int, off: int, src: seq<int>)
      requires Valid() && i in inodes && 0 <= off
      ensures Writing(Now(), Now(), i, off, src, 0)
    {
      assert Sound(Now());
      WritingStart(Now(), i, off, src);
    }

    // writei: touched are the blocks it may have passed to log_write before the inode's, which comes last.
    method Writei(i: int, off: int, src: seq<int>) returns (r: int, ghost touched: set<int>)
      requires Valid() && i in inodes && 0 <= off < U32 && |src| < U32 && Bytes(src)
      modifies this`bits, this`blocks, this`inodes, this`own, this`dirty
      ensures Valid() && i in inodes
      ensures r == -1 <==> off > old(inodes)[i].size || off + |src| > MAXFILE * BSIZE
      ensures r == -1 ==> Now() == old(Now()) && dirty == old(dirty)
      ensures r != -1 ==> 0 <= r <= |src| && Wrote(old(Now()), Now(), i, off, src, r)
      ensures r != -1 && r < |src| ==> Full()
      ensures r != -1 ==> Grew(old(own), own, i, off / BSIZE, LastBlock(off, r))
      ensures dirty <= old(dirty) + touched + {IBlock(i)} && (|src| <= 3 * BSIZE ==> |touched| <= MAXOPBLOCKS - 1)
      ensures old(dirty) <= dirty && Logged(old(Now()), Now(), bmapstart, dirty)
      ensures r != -1 ==> IBlock(i) in dirty
    {
      touched := {};
      LoggedNone(Now(), bmapstart, dirty);
      if off > inodes[i].size || (off + |src|) % U32 < off {
        return -1, touched;
      }
      if off + |src| > MAXFILE * BSIZE {
        return -1, touched;
      }
      ghost var fs0 := Now();
      ghost var k, bm, dat;
      r, k, bm, dat := WriteLoop(i, off, src);
      ghost var fs := Now();
      SameSize(fs0, fs, i, off, src, r);
      WroteAll(fs0, fs, i, off, src, r);
      if off + r > inodes[i].size {
        inodes := inodes[i := inodes[i].(size := off + r)];
      } else {
        SetSame(fs, i);
      }
      touched := bm + dat + Known(inodes[i].addrs[NDIRECT]);
      assert dirty <= old(dirty) + touched;
      LoggedInodes(fs0, fs, Now(), bmapstart, dirty);
      LoggedMore(fs0, Now(), bmapstart, dirty, dirty + {IBlock(i)});
      dirty := dirty + {IBlock(i)};
      if |src| <= 3 * BSIZE {
        TouchedAll(k, off, bm, dat, inodes[i].addrs[NDIRECT]);
      }
    }

    lemma AtMostOneMore(d: set<int>, s: set<int>, b: int)
      requires d <= s + {b} && |s| <= MAXOPBLOCKS - 1
      ensures |d| <= MAXOPBLOCKS
    {
      assert |s + {b}| <= |s| + 1;
      assert s + {b} == d + (s + {b} - d);
    }

    // From state a to b, everything that changed has been passed to log_write.
    ghost predicate Whole(a: Fs, b: Fs, i: int, op: set<int>) {
      Logged(a, b, bmapstart, op) && (IBlock(i) in op || a == b)
    }

    // filewrite on an inode: chunk by chunk, each in a transaction of its own. off' is the new
    // file offset, ops the blocks each transaction passed to log_write, at the states between them.
    method Filewrite(i: int, off: int, src: seq<int>, n: int)
        returns (ret: int, off': int, ghost ops: seq<set<int>>, ghost at: seq<Fs>)
      requires Valid() && i in inodes && 0 <= off < U32 && -0x8000_0000 <= n < 0x8000_0000 && Bytes(src)
      requires |src| == if n < 0 then 0 else n
      modifies this`bits, this`blocks, this`inodes, this`own, this`dirty
      ensures Valid() && i in inodes
      ensures 0 <= off' - off <= |src| && ret == if off' - off == n then n else -1
      ensures off > old(inodes)[i].size ==> Now() == old(Now()) && off' == off
      ensures off <= old(inodes)[i].size ==> Wrote(old(Now()), Now(), i, off, src, off' - off)
      ensures off' - off < n && off <= old(inodes)[i].size ==>
        Full() || off' + Least(n - (off' - off), CHUNK) > MAXFILE * BSIZE
      ensures forall k :: 0 <= k < |ops| ==> |ops[k]| <= MAXOPBLOCKS
      ensures |at| == |ops| + 1 && at[0] == old(Now()) && at[|ops|] == Now()
      ensures forall k :: 0 <= k < |ops| ==> Whole(at[k], at[k + 1], i, ops[k])
    {
      ops, at := [], [Now()];
      off' := off;
      ghost var fs0 := Now();
      if off <= inodes[i].size {
        assert Wrote(fs0, fs0, i, off, src, 0) by { assert Sound(fs0); WroteNone(fs0, i, off, src); }
      }
      var d := 0;
      while d < n
        invariant 0 <= d <= |src| && off' == off + d && Valid() && i in inodes
        invariant off > fs0.inodes[i].size ==> Now() == fs0 && d == 0
        invariant off <= fs0.inodes[i].size ==> Wrote(fs0, Now(), i, off, src, d)
        invariant forall k :: 0 <= k < |ops| ==> |ops[k]| <= MAXOPBLOCKS
        invariant |at| == |ops| + 1 && at[0] == fs0 && at[|ops|] == Now()
        invariant forall k :: 0 <= k < |ops| ==> Whole(at[k], at[k + 1], i, ops[k])
      {
        var n1 := Least(n - d, CHUNK);
        ghost var fs1 := Now();
        dirty := {};
        if off <= fs0.inodes[i].size { WroteSize(fs0, fs1, i, off, src, d); }
        var r;
        ghost var touched;
        r, touched := Writei(i, off', src[d..d + n1]);
        AtMostOneMore(dirty, touched, IBlock(i));
        assert Whole(fs1, Now(), i, dirty);
        ops, at := ops + [dirty], at + [Now()];
        if r > 0 {
          off' := off' + r;
        }
        if r >= 0 { WroteTwice(fs0, fs1, Now(), i, off, src, d, n1, r); }
        if r != n1 {
          break;
        }
        d := d + r;
      }
      ret := if d == n then n else -1;
    }

    // bfree
    method Bfree(b: int)
      requires 0 <= b < |bits| && bits[b]
      modifies this`bits, this`own, this`dirty
      ensures Now() == Release(old(Now()), b) && dirty == old(dirty) + {BBlock(b)}
      ensures bits == old(bits)[b := false]
    {
      bits := bits[b := false];
      own := own - {b};
      dirty := dirty + {BBlock(b)};
    }

    method ItruncDirect(i: int, ghost fs0: Fs, ghost d0: set<int>)
      requires i in inodes && |inodes[i].addrs| == NDIRECT + 1 && Trunc(fs0, Now(), i)
      requires dirty == d0 + FreedBitmaps(fs0.own, own, bmapstart)
      modifies this`bits, this`inodes, this`own, this`dirty
      ensures dirty == d0 + FreedBitmaps(fs0.own, own, bmapstart)
      ensures i in inodes && |inodes[i].addrs| == NDIRECT + 1 && Trunc(fs0, Now(), i)
      ensures forall n :: 0 <= n < NDIRECT ==> inodes[i].addrs[n] == 0
    {
      for n := 0 to NDIRECT
        invariant i in inodes && |inodes[i].addrs| == NDIRECT + 1 && Trunc(fs0, Now(), i)
        invariant forall k :: 0 <= k < n ==> inodes[i].addrs[k] == 0
        invariant dirty == d0 + FreedBitmaps(fs0.own, own, bmapstart)
      {
        var b := inodes[i].addrs[n];
        if b != 0 {
          TruncDirect(fs0, Now(), i, n, b);
          FreedNext(fs0.own, own, bmapstart, b);
          ghost var fs := Now();
          Bfree(b);
          inodes := inodes[i := inodes[i].(addrs := inodes[i].addrs[n := 0])];
          assert Now() == Release(SetAddr(fs, i, n, 0), b);
        }
      }
    }

    // Frees the blocks listed in the indirect block, and then that block.
    method ItruncIndirect(i: int, ghost fs0: Fs, ghost d0: set<int>)
      requires i in inodes && |inodes[i].addrs| == NDIRECT + 1 && Trunc(fs0, Now(), i) && inodes[i].addrs[NDIRECT] != 0
      requires dirty == d0 + FreedBitmaps(fs0.own, own, bmapstart)
      modifies this`bits, this`inodes, this`own, this`dirty
      ensures dirty == d0 + FreedBitmaps(fs0.own, own, bmapstart)
      ensures i in inodes && |inodes[i].addrs| == NDIRECT + 1 && Trunc(fs0, Now(), i)
      ensures inodes[i].addrs == old(inodes)[i].addrs[NDIRECT := 0]
    {
      var ind := inodes[i].addrs[NDIRECT];
      IndirectFacts(i, fs0);
      var a := blocks[ind];
      ghost var z := a;      // the indirect block, had the entries been cleared
      for k := 0 to NINDIRECT
        invariant inodes == old(inodes) && BlockOk(z)
        invariant Trunc(fs0, PutBlock(Now(), ind, z), i) && dirty == d0 + FreedBitmaps(fs0.own, own, bmapstart)
        invariant forall j :: 0 <= j < NINDIRECT ==> Word(z, j) == if j < k then 0 else Word(a, j)
      {
        var b := Word(a, k);
        if b != 0 {
          ghost var g := PutBlock(Now(), ind, z);
          TruncEntry(fs0, g, i, k, ind, b);
          FreedNext(fs0.own, own, bmapstart, b);
          Bfree(b);
          WordSetWord(z, k, 0);
          z := SetWord(z, k, 0);
          assert PutBlock(Now(), ind, z) == Release(PutBlock(g, ind, z), b);
        }
      }
      ghost var g := PutBlock(Now(), ind, z);
      TruncLast(fs0, g, i, ind);
      FreedNext(fs0.own, own, bmapstart, ind);
      Bfree(ind);
      inodes := inodes[i := inodes[i].(addrs := inodes[i].addrs[NDIRECT := 0])];
      ghost var h := PutBlock(Now(), ind, z);
      assert h == Release(SetAddr(g, i, NDIRECT, 0), ind);
      TruncForget(fs0, h, i, ind, a);
      assert PutBlock(h, ind, a) == Now();
    }

    lemma IndirectFacts(i: int, fs0: Fs)
      requires i in inodes && |inodes[i].addrs| == NDIRECT + 1 && Trunc(fs0, Now(), i) && inodes[i].addrs[NDIRECT] != 0
      ensures inodes[i].addrs[NDIRECT] in blocks && BlockOk(blocks[inodes[i].addrs[NDIRECT]])
      ensures PutBlock(Now(), inodes[i].addrs[NDIRECT], blocks[inodes[i].addrs[NDIRECT]]) == Now()
    {
      assert Truncating(fs0, Now(), i);
      var ind := inodes[i].addrs[NDIRECT];
      assert blocks[ind := blocks[ind]] == blocks;
    }

    // All of the file's blocks.
    method ItruncBlocks(i: int)
      requires Valid() && i in inodes
      modifies this`bits, this`inodes, this`own, this`dirty
      ensures i in inodes && NoBlocks(inodes[i]) && Trunc(old(Now()), Now(), i)
      ensures dirty == old(dirty) + FreedBitmaps(old(own), own, bmapstart)
    {
      ghost var fs0 := Now();
      InodeFacts(i);
      assert Trunc(fs0, fs0, i) by { assert Sound(fs0); TruncatingStart(fs0, i); }
      assert FreedBitmaps(own, own, bmapstart) == {};
      ItruncDirect(i, fs0, dirty);
      if inodes[i].addrs[NDIRECT] != 0 {
        ItruncIndirect(i, fs0, old(dirty));
      }
    }

    // The inode's block is logged beside the bitmap blocks, not as one of them.
    lemma TruncBudget(i: int)
      requires Valid() && i in inodes
      ensures var bs := FileBitmaps(own, i, bmapstart);
        |bs + {IBlock(i)}| <= MAXOPBLOCKS <==> |bs| < MAXOPBLOCKS
    {
      assert Sound(Now()) && Laid(i);
      BitmapsAbove(Now(), i, bmapstart, IBlock(i));
    }

    // itrunc. A truncation that starts with nothing logged stays within MAXOPBLOCKS blocks if
    // and only if the file's blocks have fewer than MAXOPBLOCKS bitmap blocks.
    method Itrunc(i: int)
      requires Valid() && i in inodes
      modifies this`bits, this`inodes, this`own, this`dirty
      ensures Valid() && Truncated(old(Now()), Now(), i)
      ensures dirty == old(dirty) + FileBitmaps(old(own), i, bmapstart) + {IBlock(i)}
      ensures old(dirty) == {} ==> (|dirty| <= MAXOPBLOCKS <==> |FileBitmaps(old(own), i, bmapstart)| < MAXOPBLOCKS)
      ensures Logged(old(Now()), Now(), bmapstart, dirty)
    {
      TruncBudget(i);
      ItruncBlocks(i);
      ghost var fs1 := Now();
      TruncDone(old(Now()), fs1, i);
      FreedAll(old(Now()), fs1, i, bmapstart);
      inodes := inodes[i := inodes[i].(size := 0)];
      dirty := dirty + {IBlock(i)};
      assert Now() == SetSize(fs1, i, 0);
      assert old(dirty) == {} ==> dirty == FileBitmaps(old(own), i, bmapstart) + {IBlock(i)};
      TruncLogged(old(Now()), Now(), i, bmapstart, dirty);
    }
  }

  // The failing call: the file of SpreadFs has a bitmap block for each of its MAXOPBLOCKS
  // blocks, and its truncation logs one block more than end_op was promised.
  method SpreadTruncation(start: int, bmapstart: int, inodestart: int) returns (disk: FileSystem)
    requires 0 <= inodestart < bmapstart && bmapstart + MAXOPBLOCKS <= start < BPB
    ensures fresh(disk) && disk.Valid() && Truncated(SpreadFs(start), disk.Now(), 0)
    ensures |disk.dirty| == MAXOPBLOCKS + 1
  {
    SpreadOwned(start);
    disk := new FileSystem.Mount(SpreadFs(start), bmapstart, inodestart);
    SpreadCount(start, bmapstart);
    BitmapsAbove(SpreadFs(start), 0, bmapstart, disk.IBlock(0));
    disk.Itrunc(0);
  }
}
