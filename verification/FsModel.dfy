/**
 The content layer of the file system: which block holds which part of which
 file, and what every operation on inodes keeps.
 */
module FsModel {
  import opened FsBlock

  const NDIRECT: int := 12
  const MAXFILE: int := NDIRECT + NINDIRECT

  // addrs[0..NDIRECT) are data blocks, addrs[NDIRECT] the indirect block
  datatype Inode = Inode(addrs: seq<int>, size: int)

  // Part n of file ino: data block n, or the indirect block itself for n == -1.
  datatype Slot = Slot(ino: int, n: int)

  // start is the first data block; own says which slot each used data block serves.
  datatype Fs = Fs(start: int, bits: seq<bool>, blocks: map<int, Block>, inodes: map<int, Inode>, own: map<int, Slot>)

  ghost predicate InodeOk(ip: Inode) {
    |ip.addrs| == NDIRECT + 1 && 0 <= ip.size <= MAXFILE * BSIZE
  }

  ghost predicate Shape(fs: Fs) {
    && 0 < fs.start <= |fs.bits| < 0x1_0000_0000
    && (forall b :: 0 <= b < |fs.bits| ==> b in fs.blocks)
    && (forall b :: b in fs.blocks ==> BlockOk(fs.blocks[b]))
    && (forall i :: i in fs.inodes ==> InodeOk(fs.inodes[i]))
    // block addresses in inodes are block numbers
    && (forall i, n :: i in fs.inodes && 0 <= n <= NDIRECT ==> 0 <= fs.inodes[i].addrs[n] < |fs.bits|)
  }

  ghost predicate ValidSlot(fs: Fs, s: Slot) {
    s.ino in fs.inodes && -1 <= s.n < MAXFILE
  }

  // The block that slot s refers to, 0 if none.
  ghost function Ref(fs: Fs, s: Slot): (b: int)
    requires Shape(fs) && ValidSlot(fs, s)
  {
    var a := fs.inodes[s.ino].addrs;
    if s.n == -1 then a[NDIRECT]
    else if s.n < NDIRECT then a[s.n]
    else if a[NDIRECT] == 0 then 0
    else Word(fs.blocks[a[NDIRECT]], s.n - NDIRECT)
  }

  // Every reference is recorded: no block serves two slots.
  ghost predicate RefsOwned(fs: Fs)
    requires Shape(fs)
  {
    forall s :: ValidSlot(fs, s) && Ref(fs, s) != 0 ==> Ref(fs, s) in fs.own && fs.own[Ref(fs, s)] == s
  }

  // Every recorded block is referred to, and is a data block.
  ghost predicate OwnedRefs(fs: Fs)
    requires Shape(fs)
  {
    forall b :: b in fs.own ==>
      fs.start <= b < |fs.bits| && ValidSlot(fs, fs.own[b]) && Ref(fs, fs.own[b]) == b
  }

  // The bitmap: metadata blocks, and exactly the owned data blocks.
  ghost predicate BitsOk(fs: Fs) {
    && (forall b :: 0 <= b < fs.start <= |fs.bits| ==> fs.bits[b])
    && (forall b :: fs.start <= b < |fs.bits| && 0 <= b ==> (fs.bits[b] <==> b in fs.own))
  }

  // No file has a hole.
  ghost predicate NoHoles(fs: Fs)
    requires Shape(fs)
  {
    forall i, n :: i in fs.inodes && 0 <= n < MAXFILE && n * BSIZE < fs.inodes[i].size ==> Ref(fs, Slot(i, n)) != 0
  }

  ghost predicate Owned(fs: Fs) {
    Shape(fs) && RefsOwned(fs) && OwnedRefs(fs) && BitsOk(fs)
  }

  ghost predicate Inv(fs: Fs) {
    Owned(fs) && NoHoles(fs)
  }

  ghost predicate Refers(fs: Fs, s: Slot, b: int)
    requires Shape(fs)
  {
    ValidSlot(fs, s) && Ref(fs, s) == b
  }

  // A data block's bit is set iff some slot refers to it, and then only one does.
  lemma OneOwner(fs: Fs, b: int)
    requires Inv(fs) && fs.start <= b < |fs.bits|
    ensures fs.bits[b] <==> exists s :: Refers(fs, s, b)
    ensures forall s, t :: Refers(fs, s, b) && Refers(fs, t, b) ==> s == t
  {
    if b in fs.own { assert Refers(fs, fs.own[b], b); }
    forall s | Refers(fs, s, b) ensures b in fs.own && fs.own[b] == s {}
  }

  // Byte off of file i.
  ghost function ByteAt(fs: Fs, i: int, off: int): (v: int)
    requires Inv(fs) && i in fs.inodes && 0 <= off < fs.inodes[i].size
  {
    var b := Ref(fs, Slot(i, off / BSIZE));
    assert Ref(fs, Slot(i, off / BSIZE)) != 0;
    assert b in fs.own;
    fs.blocks[b].bytes[off % BSIZE]
  }

  ghost function Content(fs: Fs, i: int): (s: seq<int>)
    requires Inv(fs) && i in fs.inodes
  {
    seq(fs.inodes[i].size, off requires 0 <= off < fs.inodes[i].size => ByteAt(fs, i, off))
  }

  // ---------------------------------------------------------------------
  // Giving a free block to a slot: balloc, bzero, and the store that links it.

  ghost predicate FreeBlock(fs: Fs, b: int) {
    fs.start <= b < |fs.bits| && 0 <= b && !fs.bits[b]
  }

  ghost predicate CanAttach(fs: Fs, s: Slot, b: int)
    requires Shape(fs)
  {
    && ValidSlot(fs, s) && FreeBlock(fs, b) && Ref(fs, s) == 0
    && (s.n >= NDIRECT ==> fs.inodes[s.ino].addrs[NDIRECT] != 0)
  }

  // balloc: mark the bit, zero the block
  ghost function Claim(fs: Fs, b: int, s: Slot): (fs': Fs)
    requires 0 <= b < |fs.bits|
  {
    fs.(bits := fs.bits[b := true], blocks := fs.blocks[b := Zero()], own := fs.own[b := s])
  }

  ghost function SetAddr(fs: Fs, ino: int, n: int, b: int): (fs': Fs)
    requires ino in fs.inodes && 0 <= n < |fs.inodes[ino].addrs|
  {
    var ip := fs.inodes[ino];
    fs.(inodes := fs.inodes[ino := ip.(addrs := ip.addrs[n := b])])
  }

  ghost function Attach(fs: Fs, s: Slot, b: int): (fs': Fs)
    requires Shape(fs) && CanAttach(fs, s, b)
  {
    var c := Claim(fs, b, s);
    if s.n == -1 then SetAddr(c, s.ino, NDIRECT, b)
    else if s.n < NDIRECT then SetAddr(c, s.ino, s.n, b)
    else
      var ind := fs.inodes[s.ino].addrs[NDIRECT];
      c.(blocks := c.blocks[ind := SetWord(fs.blocks[ind], s.n - NDIRECT, b)])
  }

  // Two files do not share an indirect block, and no file uses a free one.
  lemma IndirectApart(fs: Fs, i: int, b: int)
    requires Owned(fs) && i in fs.inodes && fs.inodes[i].addrs[NDIRECT] != 0
    ensures FreeBlock(fs, b) ==> fs.inodes[i].addrs[NDIRECT] != b
    ensures forall j :: j in fs.inodes && j != i ==> fs.inodes[j].addrs[NDIRECT] != fs.inodes[i].addrs[NDIRECT]
  {
    assert Ref(fs, Slot(i, -1)) != 0;
    forall j | j in fs.inodes && j != i ensures fs.inodes[j].addrs[NDIRECT] != fs.inodes[i].addrs[NDIRECT] {
      assert ValidSlot(fs, Slot(j, -1));
      assert Ref(fs, Slot(j, -1)) == fs.inodes[j].addrs[NDIRECT];
    }
  }

  lemma AttachShape(fs: Fs, s: Slot, b: int)
    requires Owned(fs) && CanAttach(fs, s, b)
    ensures Shape(Attach(fs, s, b))
  {
    if s.n >= NDIRECT {
      WordSetWord(fs.blocks[fs.inodes[s.ino].addrs[NDIRECT]], s.n - NDIRECT, b);
    }
  }

  lemma AttachRef(fs: Fs, s: Slot, b: int, t: Slot)
    requires Owned(fs) && CanAttach(fs, s, b) && ValidSlot(fs, t) && Shape(Attach(fs, s, b))
    ensures ValidSlot(Attach(fs, s, b), t)
    ensures Ref(Attach(fs, s, b), t) == if t == s then b else Ref(fs, t)
  {
    var ind := fs.inodes[t.ino].addrs[NDIRECT];
    if t.n >= NDIRECT {
      if ind != 0 { IndirectApart(fs, t.ino, b); }
      if s.n >= NDIRECT { WordSetWord(fs.blocks[fs.inodes[s.ino].addrs[NDIRECT]], s.n - NDIRECT, b); }
      if s == Slot(t.ino, -1) { WordZero(t.n - NDIRECT); }
    }
  }

  lemma AttachOwned(fs: Fs, s: Slot, b: int)
    requires Owned(fs) && CanAttach(fs, s, b)
    ensures Owned(Attach(fs, s, b))
  {
    var fs' := Attach(fs, s, b);
    AttachShape(fs, s, b);
    forall t | ValidSlot(fs', t) ensures Ref(fs', t) == if t == s then b else Ref(fs, t) { AttachRef(fs, s, b, t); }
    assert b !in fs.own;
  }

  lemma AttachInv(fs: Fs, s: Slot, b: int)
    requires Inv(fs) && CanAttach(fs, s, b)
    ensures Inv(Attach(fs, s, b))
  {
    var fs' := Attach(fs, s, b);
    AttachOwned(fs, s, b);
    forall i, n | i in fs'.inodes && 0 <= n < MAXFILE && n * BSIZE < fs'.inodes[i].size
      ensures Ref(fs', Slot(i, n)) != 0
    {
      AttachRef(fs, s, b, Slot(i, n));
    }
  }

  // ---------------------------------------------------------------------
  // Writing into a file's block.

  // Replace the content of block n of file i.
  ghost function PutBlock(fs: Fs, b: int, data: Block): (fs': Fs) {
    fs.(blocks := fs.blocks[b := data])
  }

  lemma PutRef(fs: Fs, i: int, n: int, data: Block, t: Slot)
    requires Owned(fs) && i in fs.inodes && 0 <= n < MAXFILE && Ref(fs, Slot(i, n)) != 0 && BlockOk(data)
    requires ValidSlot(fs, t)
    ensures Shape(PutBlock(fs, Ref(fs, Slot(i, n)), data))
    ensures ValidSlot(PutBlock(fs, Ref(fs, Slot(i, n)), data), t)
    ensures Ref(PutBlock(fs, Ref(fs, Slot(i, n)), data), t) == Ref(fs, t)
  {
    assert ValidSlot(fs, Slot(t.ino, -1));
    assert Ref(fs, Slot(t.ino, -1)) == fs.inodes[t.ino].addrs[NDIRECT];
    assert fs.own[Ref(fs, Slot(i, n))] == Slot(i, n);
  }

  lemma PutInv(fs: Fs, i: int, n: int, data: Block)
    requires Inv(fs) && i in fs.inodes && 0 <= n < MAXFILE && Ref(fs, Slot(i, n)) != 0 && BlockOk(data)
    ensures Inv(PutBlock(fs, Ref(fs, Slot(i, n)), data))
  {
    var fs' := PutBlock(fs, Ref(fs, Slot(i, n)), data);
    assert Shape(fs') by { PutRef(fs, i, n, data, Slot(i, n)); }
    forall t | ValidSlot(fs', t) ensures Ref(fs', t) == Ref(fs, t) { PutRef(fs, i, n, data, t); }
  }
}
