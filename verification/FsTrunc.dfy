/**
 Taking blocks away from a file: bfree and the store that unlinks the block,
 the inverse of giving a block to a slot, and what a truncation in progress keeps.
 */
module FsTrunc {
  import opened FsBlock
  import opened FsModel
  import opened FsWrite
  import opened FsSteps
  import opened Params

  ghost predicate CanDetach(fs: Fs, s: Slot)
    requires Shape(fs)
  {
    && ValidSlot(fs, s) && Ref(fs, s) != 0
    // an indirect block goes last
    && (s.n == -1 ==> forall k :: NDIRECT <= k < MAXFILE ==> Ref(fs, Slot(s.ino, k)) == 0)
  }

  // bfree
  ghost function Release(fs: Fs, b: int): (fs': Fs)
    requires 0 <= b < |fs.bits|
  {
    fs.(bits := fs.bits[b := false], own := fs.own - {b})
  }

  ghost function Unlink(fs: Fs, s: Slot): (fs': Fs)
    requires Shape(fs) && ValidSlot(fs, s) && Ref(fs, s) != 0
  {
    if s.n == -1 then SetAddr(fs, s.ino, NDIRECT, 0)
    else if s.n < NDIRECT then SetAddr(fs, s.ino, s.n, 0)
    else
      var ind := fs.inodes[s.ino].addrs[NDIRECT];
      fs.(blocks := fs.blocks[ind := SetWord(fs.blocks[ind], s.n - NDIRECT, 0)])
  }

  ghost function Detach(fs: Fs, s: Slot): (fs': Fs)
    requires Owned(fs) && CanDetach(fs, s)
  {
    assert Ref(fs, s) in fs.own;
    Release(Unlink(fs, s), Ref(fs, s))
  }

  lemma DetachShape(fs: Fs, s: Slot)
    requires Owned(fs) && CanDetach(fs, s)
    ensures Shape(Detach(fs, s))
  {
    if s.n >= NDIRECT {
      WordSetWord(fs.blocks[fs.inodes[s.ino].addrs[NDIRECT]], s.n - NDIRECT, 0);
    }
  }

  lemma DetachRef(fs: Fs, s: Slot, t: Slot)
    requires Owned(fs) && CanDetach(fs, s) && ValidSlot(fs, t) && Shape(Detach(fs, s))
    ensures ValidSlot(Detach(fs, s), t) && Ref(Detach(fs, s), t) == if t == s then 0 else Ref(fs, t)
  {
    if t.n >= NDIRECT {
      if fs.inodes[t.ino].addrs[NDIRECT] != 0 { IndirectApart(fs, t.ino, 0); }
      if s.n >= NDIRECT { WordSetWord(fs.blocks[fs.inodes[s.ino].addrs[NDIRECT]], s.n - NDIRECT, 0); }
    }
  }

  // In fs' slot s has lost its block and every other slot has the one it had.
  ghost predicate LostOne(fs: Fs, fs': Fs, s: Slot)
    requires Shape(fs) && Shape(fs')
  {
    fs'.inodes.Keys == fs.inodes.Keys
      && forall t :: ValidSlot(fs', t) ==> Ref(fs', t) == if t == s then 0 else Ref(fs, t)
  }

  lemma DetachRefsOwned(fs: Fs, fs': Fs, s: Slot, b: int)
    requires Owned(fs) && Shape(fs') && LostOne(fs, fs', s) && ValidSlot(fs, s) && Ref(fs, s) == b != 0
      && fs'.own == fs.own - {b}
    ensures RefsOwned(fs')
  {
    assert fs.own[b] == s;
    forall t | ValidSlot(fs', t) && Ref(fs', t) != 0 ensures Ref(fs', t) in fs'.own && fs'.own[Ref(fs', t)] == t {
      assert fs.own[Ref(fs, t)] == t;
    }
  }

  lemma DetachOwnedRefs(fs: Fs, fs': Fs, s: Slot, b: int)
    requires Owned(fs) && Shape(fs') && LostOne(fs, fs', s) && ValidSlot(fs, s) && Ref(fs, s) == b != 0
      && fs'.own == fs.own - {b}
    requires fs'.start == fs.start && |fs'.bits| == |fs.bits|
    ensures OwnedRefs(fs')
  {
    forall c | c in fs'.own
      ensures fs'.start <= c < |fs'.bits| && ValidSlot(fs', fs'.own[c]) && Ref(fs', fs'.own[c]) == c
    {
      assert Ref(fs, fs.own[c]) == c;
    }
  }

  lemma DetachOwned(fs: Fs, s: Slot)
    requires Owned(fs) && CanDetach(fs, s)
    ensures Owned(Detach(fs, s))
  {
    var fs' := Detach(fs, s);
    DetachShape(fs, s);
    assert LostOne(fs, fs', s) by {
      forall t | ValidSlot(fs', t) ensures Ref(fs', t) == if t == s then 0 else Ref(fs, t) { DetachRef(fs, s, t); }
    }
    assert Ref(fs, s) in fs.own;
    DetachRefsOwned(fs, fs', s, Ref(fs, s));
    DetachOwnedRefs(fs, fs', s, Ref(fs, s));
    assert BitsOk(fs');
  }

  // The truncation of file i has come from fs0 to fs: only blocks of file i were freed,
  // and nothing of another file changed.
  ghost predicate Truncating(fs0: Fs, fs: Fs, i: int) {
    && Inv(fs0) && Owned(fs) && i in fs0.inodes
    && fs.start == fs0.start && |fs.bits| == |fs0.bits| && fs.inodes.Keys == fs0.inodes.Keys
    && fs.inodes[i].size == fs0.inodes[i].size
    && (forall j :: j in fs0.inodes && j != i ==> fs.inodes[j] == fs0.inodes[j])
    && (forall b :: b in fs.own ==> b in fs0.own && fs.own[b] == fs0.own[b])
    && (forall b :: b in fs0.own && fs0.own[b].ino != i ==> b in fs.own && fs.blocks[b] == fs0.blocks[b])
  }

  lemma TruncatingStart(fs: Fs, i: int)
    requires Inv(fs) && i in fs.inodes
    ensures Truncating(fs, fs, i)
  {
  }

  lemma TruncatingStep(fs0: Fs, fs: Fs, i: int, n: int)
    requires Truncating(fs0, fs, i) && CanDetach(fs, Slot(i, n))
    ensures Truncating(fs0, Detach(fs, Slot(i, n)), i)
  {
    var s := Slot(i, n);
    DetachOwned(fs, s);
    assert fs.own[Ref(fs, s)] == s;
    if n >= NDIRECT {
      assert ValidSlot(fs, Slot(i, -1)) && Ref(fs, Slot(i, -1)) == fs.inodes[i].addrs[NDIRECT];
    }
  }

  ghost predicate Trunc(fs0: Fs, fs: Fs, i: int) {
    forall f :: f == fs ==> Truncating(fs0, f, i)
  }

  // Freeing addrs[n].
  lemma TruncDirect(fs0: Fs, fs: Fs, i: int, n: int, b: int)
    requires Trunc(fs0, fs, i) && i in fs.inodes && 0 <= n < NDIRECT < |fs.inodes[i].addrs|
    requires fs.inodes[i].addrs[n] == b && b != 0
    ensures 0 <= b < |fs.bits| && fs.bits[b] && b in fs.own && b in fs0.own
    ensures Trunc(fs0, Release(SetAddr(fs, i, n, 0), b), i)
  {
    assert Truncating(fs0, fs, i);
    assert Ref(fs, Slot(i, n)) == b;
    TruncatingStep(fs0, fs, i, n);
    assert Truncating(fs0, Detach(fs, Slot(i, n)), i);
  }

  // Freeing entry k of the indirect block.
  lemma TruncEntry(fs0: Fs, fs: Fs, i: int, k: int, ind: int, b: int)
    requires Trunc(fs0, fs, i) && i in fs.inodes && 0 <= k < NINDIRECT && NDIRECT < |fs.inodes[i].addrs|
    requires fs.inodes[i].addrs[NDIRECT] == ind && ind != 0 && ind in fs.blocks && |fs.blocks[ind].bytes| == BSIZE
    requires Word(fs.blocks[ind], k) == b && b != 0
    ensures 0 <= b < |fs.bits| && fs.bits[b] && b in fs.own && b in fs0.own
    ensures Trunc(fs0, Release(PutBlock(fs, ind, SetWord(fs.blocks[ind], k, 0)), b), i)
  {
    assert Truncating(fs0, fs, i);
    assert Ref(fs, Slot(i, NDIRECT + k)) == b;
    TruncatingStep(fs0, fs, i, NDIRECT + k);
    assert Truncating(fs0, Detach(fs, Slot(i, NDIRECT + k)), i);
  }

  // Freeing the indirect block.
  lemma TruncLast(fs0: Fs, fs: Fs, i: int, ind: int)
    requires Trunc(fs0, fs, i) && i in fs.inodes && NDIRECT < |fs.inodes[i].addrs|
    requires fs.inodes[i].addrs[NDIRECT] == ind && ind != 0 && ind in fs.blocks && |fs.blocks[ind].bytes| == BSIZE
    requires forall k :: 0 <= k < NINDIRECT ==> Word(fs.blocks[ind], k) == 0
    ensures 0 <= ind < |fs.bits| && fs.bits[ind] && ind in fs.own && ind in fs0.own
    ensures Trunc(fs0, Release(SetAddr(fs, i, NDIRECT, 0), ind), i)
  {
    assert Truncating(fs0, fs, i);
    assert Ref(fs, Slot(i, -1)) == ind;
    TruncatingStep(fs0, fs, i, -1);
    assert Truncating(fs0, Detach(fs, Slot(i, -1)), i);
  }

  // What a truncation has to do: exactly the blocks of file i are free, the file is empty,
  // and every other file is as before.
  ghost predicate Emptied(fs0: Fs, fs: Fs, i: int) {
    && Inv(fs0) && Inv(fs) && fs.inodes.Keys == fs0.inodes.Keys && |fs.bits| == |fs0.bits| && i in fs0.inodes
    && fs.inodes[i].size == 0
    && (forall b :: 0 <= b < |fs0.bits| ==> (fs.bits[b] <==> fs0.bits[b] && !(b in fs0.own && fs0.own[b].ino == i)))
    && (forall j :: j in fs0.inodes && j != i ==> Content(fs, j) == Content(fs0, j))
  }

  // The same; the quantifier keeps the definition folded until Emptied is mentioned.
  ghost predicate Truncated(fs0: Fs, fs: Fs, i: int) { forall f :: f == fs ==> Emptied(fs0, f, i) }

  // The content of a block that no slot refers to does not matter.
  lemma TruncForget(fs0: Fs, fs: Fs, i: int, b: int, x: Block)
    requires Trunc(fs0, fs, i) && b !in fs.own && b in fs.blocks && BlockOk(x)
    ensures Trunc(fs0, PutBlock(fs, b, x), i)
  {
    assert Truncating(fs0, fs, i);
    var fs' := PutBlock(fs, b, x);
    assert Shape(fs');
    forall t | ValidSlot(fs', t) ensures Ref(fs', t) == Ref(fs, t) {
      assert ValidSlot(fs, Slot(t.ino, -1)) && Ref(fs, Slot(t.ino, -1)) == fs.inodes[t.ino].addrs[NDIRECT];
    }
    assert Owned(fs');
    assert Truncating(fs0, fs', i);
  }

  ghost predicate NoBlocks(ip: Inode) {
    |ip.addrs| == NDIRECT + 1 && forall n :: 0 <= n <= NDIRECT ==> ip.addrs[n] == 0
  }

  lemma NoRefs(fs: Fs, i: int)
    requires Owned(fs) && i in fs.inodes && NoBlocks(fs.inodes[i])
    ensures forall b :: b in fs.own ==> fs.own[b].ino != i
  {
    forall b | b in fs.own ensures fs.own[b].ino != i {
      assert Ref(fs, fs.own[b]) == b;
    }
  }

  // Blocks of another file have the same slots and bytes.
  lemma TruncSlot(fs0: Fs, fs: Fs, i: int, t: Slot)
    requires Truncating(fs0, fs, i) && ValidSlot(fs0, t) && t.ino != i
    ensures ValidSlot(fs, t) && Ref(fs, t) == Ref(fs0, t)
    ensures Ref(fs, t) != 0 ==>
      Ref(fs, t) in fs.blocks && Ref(fs0, t) in fs0.blocks && fs.blocks[Ref(fs, t)] == fs0.blocks[Ref(fs0, t)]
  {
    assert ValidSlot(fs0, Slot(t.ino, -1)) && Ref(fs0, Slot(t.ino, -1)) == fs0.inodes[t.ino].addrs[NDIRECT];
    if Ref(fs0, t) != 0 { assert fs0.own[Ref(fs0, t)] == t; }
  }

  lemma TruncInv(fs0: Fs, fs: Fs, i: int)
    requires Truncating(fs0, fs, i)
    ensures Inv(SetSize(fs, i, 0))
  {
    var fs' := SetSize(fs, i, 0);
    SizeOwned(fs, i, 0);
    forall j, n | j in fs'.inodes && 0 <= n < MAXFILE && n * BSIZE < fs'.inodes[j].size
      ensures Ref(fs', Slot(j, n)) != 0
    {
      SizeRef(fs, i, 0, Slot(j, n));
      TruncSlot(fs0, fs, i, Slot(j, n));
      assert Ref(fs0, Slot(j, n)) != 0;
    }
  }

  lemma TruncOther(fs0: Fs, fs: Fs, i: int, j: int)
    requires Truncating(fs0, fs, i) && j in fs0.inodes && j != i && Inv(SetSize(fs, i, 0))
    ensures Content(SetSize(fs, i, 0), j) == Content(fs0, j)
  {
    var c, c0 := Content(SetSize(fs, i, 0), j), Content(fs0, j);
    forall pos | 0 <= pos < |c0| ensures c[pos] == c0[pos] { TruncByte(fs0, fs, i, j, pos); }
    assert c == c0;
  }

  lemma TruncByte(fs0: Fs, fs: Fs, i: int, j: int, pos: int)
    requires Truncating(fs0, fs, i) && j in fs0.inodes && j != i && Inv(SetSize(fs, i, 0))
      && 0 <= pos < fs0.inodes[j].size
    ensures ByteAt(SetSize(fs, i, 0), j, pos) == ByteAt(fs0, j, pos)
  {
    var t := Slot(j, pos / BSIZE);
    SizeRef(fs, i, 0, t);
    TruncSlot(fs0, fs, i, t);
    assert Ref(fs0, t) != 0;
  }

  lemma TruncDone(fs0: Fs, fs: Fs, i: int)
    requires Trunc(fs0, fs, i) && i in fs.inodes && NoBlocks(fs.inodes[i])
    ensures Truncated(fs0, SetSize(fs, i, 0), i)
    ensures Sound(SetSize(fs, i, 0)) && fs.inodes.Keys == fs0.inodes.Keys
  {
    assert Truncating(fs0, fs, i);
    var fs' := SetSize(fs, i, 0);
    TruncInv(fs0, fs, i);
    NoRefs(fs, i);
    forall j | j in fs0.inodes && j != i ensures Content(fs', j) == Content(fs0, j) { TruncOther(fs0, fs, i, j); }
    assert Emptied(fs0, fs', i);
  }

  // ---------------------------------------------------------------------
  // The bitmap blocks that a truncation logs.

  ghost predicate PartOf(own: map<int, Slot>, b: int, i: int) { b in own && own[b].ino == i }

  // those of the blocks of file i
  ghost function FileBitmaps(own: map<int, Slot>, i: int, bmapstart: int): (s: set<int>) {
    set b | b in own && PartOf(own, b, i) :: BitmapBlock(b, bmapstart)
  }

  // those of the blocks that were given up from own0 to own
  ghost function FreedBitmaps(own0: map<int, Slot>, own: map<int, Slot>, bmapstart: int): (s: set<int>) {
    set b | b in own0 && b !in own :: BitmapBlock(b, bmapstart)
  }

  lemma FreedNext(own0: map<int, Slot>, own: map<int, Slot>, bmapstart: int, b: int)
    requires b in own0 && b in own
    ensures FreedBitmaps(own0, own - {b}, bmapstart) == FreedBitmaps(own0, own, bmapstart) + {BitmapBlock(b, bmapstart)}
  {
    var s, s' := FreedBitmaps(own0, own, bmapstart), FreedBitmaps(own0, own - {b}, bmapstart);
    forall x | x in s' ensures x in s + {BitmapBlock(b, bmapstart)} {
      var c :| c in own0 && c !in own - {b} && x == BitmapBlock(c, bmapstart);
    }
    forall x | x in s ensures x in s' {
      var c :| c in own0 && c !in own && x == BitmapBlock(c, bmapstart);
      assert c !in own - {b};
    }
    assert b !in own - {b};
  }

  lemma FreedAll(fs0: Fs, fs: Fs, i: int, bmapstart: int)
    requires Trunc(fs0, fs, i) && i in fs.inodes && NoBlocks(fs.inodes[i])
    ensures FreedBitmaps(fs0.own, fs.own, bmapstart) == FileBitmaps(fs0.own, i, bmapstart)
  {
    assert Truncating(fs0, fs, i);
    NoRefs(fs, i);
    assert forall b :: b in fs0.own ==> (b !in fs.own <==> PartOf(fs0.own, b, i));
  }

  // A truncation's changes are in the blocks it logs.
  lemma TruncLogged(a: Fs, b: Fs, i: int, bmapstart: int, d: set<int>)
    requires Truncated(a, b, i) && b.blocks == a.blocks && FileBitmaps(a.own, i, bmapstart) <= d
    ensures Logged(a, b, bmapstart, d)
  {
    assert Emptied(a, b, i);
    forall x | 0 <= x < |a.bits| && b.bits[x] != a.bits[x] ensures BitmapBlock(x, bmapstart) in d {
      assert PartOf(a.own, x, i);
      assert BitmapBlock(x, bmapstart) in FileBitmaps(a.own, i, bmapstart);
    }
    assert ChangesIn(a, b, bmapstart, d);
  }

  // Bitmap blocks come after the block bmapstart.
  lemma BitmapsAbove(fs: Fs, i: int, bmapstart: int, x: int)
    requires Inv(fs) && x < bmapstart
    ensures x !in FileBitmaps(fs.own, i, bmapstart)
  {
    forall b | b in fs.own ensures BitmapBlock(b, bmapstart) >= bmapstart { assert b >= fs.start; }
  }

  // ---------------------------------------------------------------------
  // A file of MAXOPBLOCKS blocks, each with a bitmap block of its own.

  const SPREAD: int := (MAXOPBLOCKS - 1) * BPB + 1

  predicate Spread(start: int, b: int) { 0 <= b - start < SPREAD && (b - start) % BPB == 0 }

  function SpreadBlock(start: int, n: int): (b: int) { if n < MAXOPBLOCKS then start + n * BPB else 0 }

  function ZeroAt(b: int): (x: Block)
    ensures BlockOk(x)
  {
    Zero()
  }

  function SpreadFs(start: int): (fs: Fs)
    requires 0 < start
  {
    Fs(start, seq(start + SPREAD, b => b < start || Spread(start, b)), map b | 0 <= b < start + SPREAD :: ZeroAt(b),
       map[0 := Inode(seq(NDIRECT + 1, n => SpreadBlock(start, n)), MAXOPBLOCKS * BSIZE)],
       map b | start <= b < start + SPREAD && Spread(start, b) :: Slot(0, (b - start) / BPB))
  }

  lemma SpreadShape(start: int)
    requires 0 < start < BPB
    ensures Shape(SpreadFs(start))
  {
    var fs := SpreadFs(start);
    forall n | 0 <= n <= NDIRECT
      ensures fs.inodes[0].addrs[n] == SpreadBlock(start, n) && 0 <= SpreadBlock(start, n) < start + SPREAD
    {
    }
    assert forall b :: 0 <= b < |fs.bits| ==> b in fs.blocks;
    assert forall b :: b in fs.blocks ==> fs.blocks[b] == ZeroAt(b);
  }

  lemma SpreadRef(start: int, s: Slot)
    requires 0 < start < BPB && Shape(SpreadFs(start)) && ValidSlot(SpreadFs(start), s)
    ensures s.ino == 0 && Ref(SpreadFs(start), s) == if 0 <= s.n < MAXOPBLOCKS then SpreadBlock(start, s.n) else 0
    ensures 0 <= s.n < MAXOPBLOCKS ==>
      Spread(start, SpreadBlock(start, s.n)) && (SpreadBlock(start, s.n) - start) / BPB == s.n
  {
  }

  lemma SpreadBack(start: int, b: int)
    requires 0 < start < BPB && Shape(SpreadFs(start)) && b in SpreadFs(start).own
    ensures SpreadFs(start).own[b] == Slot(0, (b - start) / BPB) && b == SpreadBlock(start, (b - start) / BPB)
      && 0 <= (b - start) / BPB < MAXOPBLOCKS
  {
  }

  lemma SpreadOwned(start: int)
    requires 0 < start < BPB
    ensures Inv(SpreadFs(start))
  {
    var fs := SpreadFs(start);
    SpreadShape(start);
    assert RefsOwned(fs) by {
      forall s | ValidSlot(fs, s) && Ref(fs, s) != 0
        ensures Ref(fs, s) in fs.own && fs.own[Ref(fs, s)] == s
      {
        SpreadRef(start, s);
      }
    }
    assert OwnedRefs(fs) by {
      forall b | b in fs.own ensures fs.start <= b < |fs.bits| && ValidSlot(fs, fs.own[b]) && Ref(fs, fs.own[b]) == b {
        SpreadBack(start, b);
        SpreadRef(start, Slot(0, (b - start) / BPB));
      }
    }
    assert BitsOk(fs);
    forall i, n | i in fs.inodes && 0 <= n < MAXFILE && n * BSIZE < fs.inodes[i].size ensures Ref(fs, Slot(i, n)) != 0 {
      SpreadRef(start, Slot(i, n));
    }
  }

  lemma {:induction false} RangeSize(bs: set<int>, lo: int, n: int)
    requires n >= 0 && forall x :: x in bs <==> lo <= x < lo + n
    ensures |bs| == n
    decreases n
  {
    if n == 0 {
      assert bs == {} by { assert forall x :: x !in bs; }
    } else {
      RangeSize(bs - {lo + n - 1}, lo, n - 1);
    }
  }

  lemma SpreadCount(start: int, bmapstart: int)
    requires 0 < start < BPB
    ensures |FileBitmaps(SpreadFs(start).own, 0, bmapstart)| == MAXOPBLOCKS
  {
    SpreadShape(start);
    var bs := FileBitmaps(SpreadFs(start).own, 0, bmapstart);
    forall x ensures x in bs <==> bmapstart <= x < bmapstart + MAXOPBLOCKS { SpreadBitmap(start, bmapstart, x); }
    RangeSize(bs, bmapstart, MAXOPBLOCKS);
  }

  lemma SpreadOut(start: int, bmapstart: int, x: int)
    requires 0 < start < BPB && Shape(SpreadFs(start)) && x in FileBitmaps(SpreadFs(start).own, 0, bmapstart)
    ensures bmapstart <= x < bmapstart + MAXOPBLOCKS
  {
    var own := SpreadFs(start).own;
    var b :| b in own && PartOf(own, b, 0) && x == BitmapBlock(b, bmapstart);
    SpreadBack(start, b);
  }

  lemma SpreadIn(start: int, bmapstart: int, n: int)
    requires 0 < start < BPB && Shape(SpreadFs(start)) && 0 <= n < MAXOPBLOCKS
    ensures n + bmapstart in FileBitmaps(SpreadFs(start).own, 0, bmapstart)
  {
    var b := SpreadBlock(start, n);
    SpreadRef(start, Slot(0, n));
    assert BitmapBlock(b, bmapstart) == n + bmapstart;
    assert PartOf(SpreadFs(start).own, b, 0);
  }

  lemma SpreadBitmap(start: int, bmapstart: int, x: int)
    requires 0 < start < BPB && Shape(SpreadFs(start))
    ensures x in FileBitmaps(SpreadFs(start).own, 0, bmapstart) <==> bmapstart <= x < bmapstart + MAXOPBLOCKS
  {
    if x in FileBitmaps(SpreadFs(start).own, 0, bmapstart) { SpreadOut(start, bmapstart, x); }
    if bmapstart <= x < bmapstart + MAXOPBLOCKS { SpreadIn(start, bmapstart, x - bmapstart); }
  }
}
