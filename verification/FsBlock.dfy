/**
 A disk block as bytes, and as the array of little-endian 32-bit words that an
 indirect block is read as.
 */
module FsBlock {

  const BSIZE: int := 1024
  const NINDIRECT: int := 256

  datatype Block = Block(bytes: seq<int>)

  ghost predicate BlockOk(b: Block) {
    |b.bytes| == BSIZE && forall i :: 0 <= i < BSIZE ==> 0 <= b.bytes[i] < 256
  }

  function Zero(): (b: Block)
    ensures BlockOk(b)
  {
    Block(seq(BSIZE, _ => 0))
  }

  function Word(b: Block, k: int): (v: int)
    requires |b.bytes| == BSIZE && 0 <= k < NINDIRECT
  {
    b.bytes[4 * k] + 0x100 * b.bytes[4 * k + 1] + 0x1_0000 * b.bytes[4 * k + 2] + 0x100_0000 * b.bytes[4 * k + 3]
  }

  function SetWord(b: Block, k: int, v: int): (b': Block)
    requires |b.bytes| == BSIZE && 0 <= k < NINDIRECT
    ensures |b'.bytes| == BSIZE
  {
    Block(b.bytes[4 * k := v % 0x100][4 * k + 1 := v / 0x100 % 0x100]
                 [4 * k + 2 := v / 0x1_0000 % 0x100][4 * k + 3 := v / 0x100_0000 % 0x100])
  }

  // Reading back a 32-bit word gives the word written; the others are untouched.
  lemma WordSetWord(b: Block, k: int, v: int)
    requires BlockOk(b) && 0 <= k < NINDIRECT && 0 <= v < 0x1_0000_0000
    ensures BlockOk(SetWord(b, k, v))
    ensures forall j :: 0 <= j < NINDIRECT ==> Word(SetWord(b, k, v), j) == if j == k then v else Word(b, j)
  {
    Digits(v);
  }

  lemma Digits(v: int)
    requires 0 <= v < 0x1_0000_0000
    ensures v == v % 0x100 + 0x100 * (v / 0x100 % 0x100) + 0x1_0000 * (v / 0x1_0000 % 0x100)
      + 0x100_0000 * (v / 0x100_0000 % 0x100)
  {
    assert v / 0x1_0000 == v / 0x100 / 0x100;
    assert v / 0x100_0000 == v / 0x1_0000 / 0x100;
  }

  lemma WordZero(k: int)
    requires 0 <= k < NINDIRECT
    ensures Word(Zero(), k) == 0
  {
  }

  // memmove of data into a block at offset at
  function Patch(b: Block, at: int, data: seq<int>): (b': Block)
    requires |b.bytes| == BSIZE && 0 <= at && at + |data| <= BSIZE
    ensures |b'.bytes| == BSIZE
  {
    Block(b.bytes[..at] + data + b.bytes[at + |data|..])
  }
}
