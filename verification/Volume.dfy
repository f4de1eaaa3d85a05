/**
 A file-system volume as a value: bitmap, blocks and inodes, which block each inode slot
 names, and what single updates do to names, ownership and file contents.
 */
module Volume {

  const BSIZE := 512
  const NDIRECT := 12
  const NINDIRECT := 128             // BSIZE / sizeof(uint)
  const MAXFILE := NDIRECT + NINDIRECT
  const UINT := 0x1_0000_0000

  type byte = x: int | 0 <= x < 256
  type Block = b: seq<byte> | |b| == BSIZE witness seq(BSIZE, _ => 0)
  type Addrs = a: seq<nat> | |a| == NDIRECT + 1 witness seq(NDIRECT + 1, _ => 0)

  /** The part of an inode that file contents depend on. */
  datatype Inode = Inode(size: nat, addrs: Addrs)

  /** The superblock: size of the volume, first data block, and where bitmap and inodes lie. */
  datatype Super = Super(size: nat, datastart: nat, bmapstart: nat, inodestart: nat) {
    ghost predicate Valid() {
      1 <= datastart <= size < UINT
    }

    predicate IsData(b: nat) {
      datastart <= b < size
    }
  }

  datatype Vol = Vol(bits: seq<bool>, blocks: seq<Block>, inodes: map<nat, Inode>)

  function ZeroBlock(): (b: Block) {
    seq(BSIZE, _ => 0)
  }

  // ---------------------------------------------------------------- words in a block

  /** The j-th 32-bit word of a block, least significant byte first. */
  function Word(b: Block, j: nat): (w: nat)
    requires j < NINDIRECT
    ensures w < UINT
  {
    var b0: int, b1: int, b2: int, b3: int := b[4 * j], b[4 * j + 1], b[4 * j + 2], b[4 * j + 3];
    b0 + 0x100 * b1 + 0x1_0000 * b2 + 0x100_0000 * b3
  }

  /** The block with word j replaced. */
  function PutWord(b: Block, j: nat, w: nat): (r: Block)
    requires j < NINDIRECT && w < UINT
  {
    b[4 * j := w % 0x100]
     [4 * j + 1 := w / 0x100 % 0x100]
     [4 * j + 2 := w / 0x1_0000 % 0x100]
     [4 * j + 3 := w / 0x100_0000]
  }

  lemma FourBytes(w: nat)
    requires w < UINT
    ensures w / 0x100_0000 < 0x100
    ensures w == w % 0x100 + 0x100 * (w / 0x100 % 0x100) + 0x1_0000 * (w / 0x1_0000 % 0x100)
              + 0x100_0000 * (w / 0x100_0000)
  {
    assert w / 0x1_0000 == w / 0x100 / 0x100;
    assert w / 0x100_0000 == w / 0x1_0000 / 0x100;
  }

  /** Writing a word changes that word and no other. */
  lemma WordPutWord(b: Block, j: nat, w: nat, k: nat)
    requires j < NINDIRECT && w < UINT && k < NINDIRECT
    ensures Word(PutWord(b, j, w), k) == if k == j then w else Word(b, k)
  {
    FourBytes(w);
  }

  lemma WordZero(j: nat)
    requires j < NINDIRECT
    ensures Word(ZeroBlock(), j) == 0
  {
  }

  // ---------------------------------------------------------------- names

  /** The places of an inode that can name a block: direct slots, the indirect slot, its words. */
  const NPOS := NDIRECT + 1 + NINDIRECT

  /** The block named at position pos of inode i, or 0. */
  function Name(v: Vol, i: nat, pos: nat): (b: nat)
    requires pos < NPOS
  {
    if i !in v.inodes then 0
    else if pos <= NDIRECT then v.inodes[i].addrs[pos]
    else
      var ind := v.inodes[i].addrs[NDIRECT];
      if ind == 0 || ind >= |v.blocks| then 0 else Word(v.blocks[ind], pos - NDIRECT - 1)
  }

  /** The position that names block bn of a file. */
  function PosOf(bn: nat): (pos: nat)
    requires bn < MAXFILE
    ensures pos < NPOS && pos != NDIRECT
  {
    if bn < NDIRECT then bn else bn + 1
  }

  ghost predicate WellSized(sb: Super, v: Vol) {
    sb.Valid() && |v.bits| == sb.size && |v.blocks| == sb.size
  }

  /** Every named block is a data block marked in use, and the blocks before the data are too. */
  ghost predicate NamesMarked(sb: Super, v: Vol)
    requires WellSized(sb, v)
  {
    && (forall b :: 0 <= b < sb.datastart ==> v.bits[b])
    && (forall i, p :: 0 <= p < NPOS && Name(v, i, p) != 0 ==>
          sb.IsData(Name(v, i, p)) && v.bits[Name(v, i, p)])
  }

  /** No block is named twice. */
  ghost predicate NamedOnce(v: Vol) {
    forall i, p, j, q :: 0 <= p < NPOS && 0 <= q < NPOS && Name(v, i, p) == Name(v, j, q) != 0 ==>
      i == j && p == q
  }

  /** The ownership invariant of the volume. */
  ghost predicate Owned(sb: Super, v: Vol) {
    WellSized(sb, v) && NamesMarked(sb, v) && NamedOnce(v)
  }

  lemma NameInRange(sb: Super, v: Vol, i: nat, p: nat)
    requires Owned(sb, v) && p < NPOS && Name(v, i, p) != 0
    ensures sb.IsData(Name(v, i, p)) && v.bits[Name(v, i, p)] && Name(v, i, p) < |v.blocks| == |v.bits|
  {
  }

  ghost predicate Unnamed(v: Vol, b: nat) {
    forall i, p :: 0 <= p < NPOS ==> Name(v, i, p) != b
  }

  ghost predicate SameNames(v: Vol, w: Vol) {
    forall i, p :: 0 <= p < NPOS ==> Name(w, i, p) == Name(v, i, p)
  }

  ghost predicate SameNamesExcept(v: Vol, w: Vol, i0: nat, p0: nat) {
    forall i, p :: 0 <= p < NPOS && (i != i0 || p != p0) ==> Name(w, i, p) == Name(v, i, p)
  }

  // ---------------------------------------------------------------- updates

  /** balloc's effect: mark block b and clear it. */
  function Take(v: Vol, b: nat): (w: Vol)
    requires b < |v.bits| && b < |v.blocks|
  {
    v.(bits := v.bits[b := true], blocks := v.blocks[b := ZeroBlock()])
  }

  /** Store b in slot s of inode i. */
  function PutAddr(v: Vol, i: nat, s: nat, b: nat): (w: Vol)
    requires i in v.inodes && s <= NDIRECT
  {
    v.(inodes := v.inodes[i := v.inodes[i].(addrs := v.inodes[i].addrs[s := b])])
  }

  /** Replace the contents of block d. */
  function PutBlock(v: Vol, d: nat, data: Block): (w: Vol)
    requires d < |v.blocks|
  {
    v.(blocks := v.blocks[d := data])
  }

  function PutSize(v: Vol, i: nat, size: nat): (w: Vol)
    requires i in v.inodes
  {
    v.(inodes := v.inodes[i := v.inodes[i].(size := size)])
  }

  /** A free block is named nowhere, and taking it changes no name. */
  lemma TakeOwned(sb: Super, v: Vol, b: nat)
    requires Owned(sb, v) && b < sb.size && !v.bits[b]
    ensures Owned(sb, Take(v, b)) && SameNames(v, Take(v, b))
    ensures Unnamed(Take(v, b), b) && sb.IsData(b) && b != 0
  {
    var w := Take(v, b);
    forall i, p | 0 <= p < NPOS ensures Name(w, i, p) == Name(v, i, p) && Name(v, i, p) != b {
      assert i in v.inodes ==> Name(v, i, NDIRECT) != b;
      assert Name(v, i, p) != b;
    }
    SameNamesOwned(sb, v, w);
  }

  lemma SameNamesOwned(sb: Super, v: Vol, w: Vol)
    requires Owned(sb, v) && WellSized(sb, w) && SameNames(v, w)
    requires forall b :: 0 <= b < sb.size && v.bits[b] ==> w.bits[b]
    ensures Owned(sb, w)
  {
    forall i, p, j, q | 0 <= p < NPOS && 0 <= q < NPOS && Name(w, i, p) == Name(w, j, q) != 0
      ensures i == j && p == q
    {
      assert Name(v, i, p) == Name(v, j, q);
    }
  }

  /** Giving an empty place a block that nobody names keeps ownership. */
  lemma NewNameOwned(sb: Super, v: Vol, w: Vol, i0: nat, p0: nat, b: nat)
    requires Owned(sb, v) && WellSized(sb, w) && w.bits == v.bits && p0 < NPOS
    requires SameNamesExcept(v, w, i0, p0) && Name(w, i0, p0) == b
    requires sb.IsData(b) && v.bits[b] && Unnamed(v, b)
    ensures Owned(sb, w)
  {
    forall i, p, j, q | 0 <= p < NPOS && 0 <= q < NPOS && Name(w, i, p) == Name(w, j, q) != 0
      ensures i == j && p == q
    {
      assert (i != i0 || p != p0) && (j != i0 || q != p0) ==> Name(v, i, p) == Name(v, j, q);
    }
  }

  /** Filling an empty direct slot, or the indirect slot with a cleared block. */
  lemma PutAddrOwned(sb: Super, v: Vol, i: nat, s: nat, b: nat)
    requires Owned(sb, v) && i in v.inodes && s <= NDIRECT && Name(v, i, s) == 0
    requires sb.IsData(b) && v.bits[b] && Unnamed(v, b) && (s == NDIRECT ==> v.blocks[b] == ZeroBlock())
    ensures Owned(sb, PutAddr(v, i, s, b))
    ensures Name(PutAddr(v, i, s, b), i, s) == b && SameNamesExcept(v, PutAddr(v, i, s, b), i, s)
  {
    var w := PutAddr(v, i, s, b);
    forall j, p | 0 <= p < NPOS && (j != i || p != s) ensures Name(w, j, p) == Name(v, j, p) {
      if j == i && s == NDIRECT && p > NDIRECT {
        WordZero(p - NDIRECT - 1);
      }
    }
    NewNameOwned(sb, v, w, i, s, b);
  }

  /** Filling an empty word of the indirect block. */
  lemma PutWordOwned(sb: Super, v: Vol, i: nat, k: nat, b: nat)
    requires Owned(sb, v) && i in v.inodes && k < NINDIRECT && Name(v, i, NDIRECT) != 0
    requires Name(v, i, NDIRECT + 1 + k) == 0 && sb.IsData(b) && v.bits[b] && Unnamed(v, b)
    ensures var ind := Name(v, i, NDIRECT);
            && ind < |v.blocks|
            && var w := PutBlock(v, ind, PutWord(v.blocks[ind], k, b));
               && Owned(sb, w) && Name(w, i, NDIRECT + 1 + k) == b
               && SameNamesExcept(v, w, i, NDIRECT + 1 + k)
  {
    var ind := Name(v, i, NDIRECT);
    var w := PutBlock(v, ind, PutWord(v.blocks[ind], k, b));
    forall j, p | 0 <= p < NPOS && (j != i || p != NDIRECT + 1 + k) ensures Name(w, j, p) == Name(v, j, p) {
      if p > NDIRECT && j in v.inodes {
        if Name(v, j, NDIRECT) == ind {
          WordPutWord(v.blocks[ind], k, b, p - NDIRECT - 1);
          assert j == i;
        }
      }
    }
    WordPutWord(v.blocks[ind], k, b, k);
    NewNameOwned(sb, v, w, i, NDIRECT + 1 + k, b);
  }

  /** Writing a data block names nothing new. */
  lemma PutDataOwned(sb: Super, v: Vol, i: nat, p: nat, data: Block)
    requires Owned(sb, v) && p < NPOS && p != NDIRECT && Name(v, i, p) != 0
    ensures var d := Name(v, i, p);
            && d < |v.blocks|
            && Owned(sb, PutBlock(v, d, data)) && SameNames(v, PutBlock(v, d, data))
  {
    var d := Name(v, i, p);
    var w := PutBlock(v, d, data);
    forall j, q | 0 <= q < NPOS ensures Name(w, j, q) == Name(v, j, q) {
      assert j in v.inodes ==> Name(v, j, NDIRECT) != d;
    }
    SameNamesOwned(sb, v, w);
  }

  lemma PutSizeOwned(sb: Super, v: Vol, i: nat, size: nat)
    requires Owned(sb, v) && i in v.inodes
    ensures Owned(sb, PutSize(v, i, size)) && SameNames(v, PutSize(v, i, size))
  {
    var w := PutSize(v, i, size);
    forall j, q | 0 <= q < NPOS ensures Name(w, j, q) == Name(v, j, q) {
    }
    SameNamesOwned(sb, v, w);
  }

  // ---------------------------------------------------------------- file contents

  const MAXBYTES := MAXFILE * BSIZE

  /** The number of blocks that hold n bytes. */
  function BlocksFor(n: nat): (k: nat) {
    (n + BSIZE - 1) / BSIZE
  }

  /** Byte o of file i, or 0 where no block is named. */
  function ByteAt(v: Vol, i: nat, o: nat): (x: byte)
    requires o < MAXBYTES
  {
    var d := Name(v, i, PosOf(o / BSIZE));
    if d == 0 || d >= |v.blocks| then 0 else v.blocks[d][o % BSIZE]
  }

  /** The file as a byte sequence. */
  function Contents(v: Vol, i: nat): (s: seq<byte>)
    requires i in v.inodes && v.inodes[i].size <= MAXBYTES
    ensures |s| == v.inodes[i].size
  {
    seq(v.inodes[i].size, o requires 0 <= o < v.inodes[i].size => ByteAt(v, i, o))
  }

  /** The first k blocks of file i exist. */
  ghost predicate Mapped(v: Vol, i: nat, k: nat) {
    k <= MAXFILE && forall bn :: 0 <= bn < k ==> Name(v, i, PosOf(bn)) != 0
  }

  ghost predicate SizeOk(v: Vol, i: nat) {
    i in v.inodes && v.inodes[i].size <= MAXBYTES
  }

  /** A file all of whose blocks up to its size exist. */
  ghost predicate HoleFree(v: Vol, i: nat) {
    SizeOk(v, i) && Mapped(v, i, BlocksFor(v.inodes[i].size))
  }

  /** Nothing that inodes other than i can see has changed. */
  ghost predicate OthersSame(v: Vol, w: Vol, i: nat) {
    && w.inodes.Keys == v.inodes.Keys && |w.blocks| == |v.blocks|
    && (forall j :: j in v.inodes && j != i ==> w.inodes[j] == v.inodes[j])
    && (forall j, p :: j != i && 0 <= p < NPOS ==>
          Name(w, j, p) == Name(v, j, p)
          && (0 < Name(v, j, p) < |v.blocks| ==> w.blocks[Name(v, j, p)] == v.blocks[Name(v, j, p)]))
  }

  lemma OthersSameTrans(u: Vol, v: Vol, w: Vol, i: nat)
    requires OthersSame(u, v, i) && OthersSame(v, w, i)
    ensures OthersSame(u, w, i)
  {
  }

  /** Other files keep their contents. */
  lemma OthersContents(v: Vol, w: Vol, i: nat, j: nat)
    requires OthersSame(v, w, i) && j != i && SizeOk(v, j)
    ensures SizeOk(w, j) && Contents(w, j) == Contents(v, j) && (HoleFree(v, j) ==> HoleFree(w, j))
  {
    forall o | 0 <= o < v.inodes[j].size ensures ByteAt(w, j, o) == ByteAt(v, j, o) {
    }
  }

  /** What file i already had is still there: the same blocks, and the same data in them. */
  ghost predicate Kept(v: Vol, w: Vol, i: nat) {
    && OthersSame(v, w, i)
    && i in v.inodes && w.inodes[i].size == v.inodes[i].size
    && (forall p :: 0 <= p < NPOS && Name(v, i, p) != 0 ==> Name(w, i, p) == Name(v, i, p))
    && (forall p :: 0 <= p < NPOS && p != NDIRECT && 0 < Name(v, i, p) < |v.blocks| ==>
          w.blocks[Name(v, i, p)] == v.blocks[Name(v, i, p)])
  }

  lemma KeptRefl(v: Vol, i: nat)
    requires i in v.inodes
    ensures Kept(v, v, i)
  {
  }

  lemma KeptTrans(u: Vol, v: Vol, w: Vol, i: nat)
    requires Kept(u, v, i) && Kept(v, w, i)
    ensures Kept(u, w, i)
  {
  }

  lemma TakeKept(sb: Super, v: Vol, i: nat, b: nat)
    requires Owned(sb, v) && i in v.inodes && b < sb.size && !v.bits[b]
    ensures Kept(v, Take(v, b), i)
  {
    TakeOwned(sb, v, b);
    var w := Take(v, b);
    forall j, p | 0 <= p < NPOS ensures Name(w, j, p) == Name(v, j, p) && Name(v, j, p) != b {
    }
  }

  lemma PutAddrKept(sb: Super, v: Vol, i: nat, s: nat, b: nat)
    requires Owned(sb, v) && i in v.inodes && s <= NDIRECT && Name(v, i, s) == 0
    requires sb.IsData(b) && v.bits[b] && Unnamed(v, b) && (s == NDIRECT ==> v.blocks[b] == ZeroBlock())
    ensures Kept(v, PutAddr(v, i, s, b), i)
  {
    PutAddrOwned(sb, v, i, s, b);
  }

  lemma PutWordKept(sb: Super, v: Vol, i: nat, k: nat, b: nat)
    requires Owned(sb, v) && i in v.inodes && k < NINDIRECT && Name(v, i, NDIRECT) != 0
    requires Name(v, i, NDIRECT + 1 + k) == 0 && sb.IsData(b) && v.bits[b] && Unnamed(v, b)
    ensures var ind := Name(v, i, NDIRECT);
            ind < |v.blocks| && Kept(v, PutBlock(v, ind, PutWord(v.blocks[ind], k, b)), i)
  {
    PutWordOwned(sb, v, i, k, b);
    var ind := Name(v, i, NDIRECT);
    var w := PutBlock(v, ind, PutWord(v.blocks[ind], k, b));
    forall j, p | 0 <= p < NPOS && (j != i || p != NDIRECT) ensures Name(v, j, p) != ind {
    }
  }
}
