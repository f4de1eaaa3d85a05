/**
 Block allocation, the mapping of file blocks, truncation, and reading and writing of file
 contents, as the code performs them on the bitmap, the buffered blocks and the inodes.
 */
module Fs {
  import opened Volume
  import opened Wrappers

  const BPB := BSIZE * 8  // bitmap bits per block
  const IPB := 8          // inodes per block

  /** A call returns a number, or the kernel panics and halts. */
  datatype Outcome = Panic | Ret(n: int)

  /** The file after src is written at off. */
  function Splice(s: seq<byte>, off: nat, src: seq<byte>): (r: seq<byte>)
    requires off <= |s|
  {
    s[..off] + src + (if off + |src| < |s| then s[off + |src|..] else [])
  }

  /** A block after data is written at offset at. */
  function Overlay(b: Block, at: nat, data: seq<byte>): (r: Block)
    requires at + |data| <= BSIZE
  {
    b[..at] + data + b[at + |data|..]
  }

  // ---------------------------------------------------------------- writing, block by block

  /** t bytes of src have been written at off to file i of v0, giving v; its size is not yet updated. */
  ghost predicate Written(sb: Super, v0: Vol, v: Vol, i: nat, off: nat, src: seq<byte>, t: nat) {
    && Owned(sb, v) && OthersSame(v0, v, i) && i in v0.inodes
    && v.inodes[i].size == v0.inodes[i].size <= MAXBYTES
    && t <= |src| && off <= v0.inodes[i].size && off + |src| <= MAXBYTES
    && (HoleFree(v0, i) ==> Mapped(v, i, BlocksFor(v0.inodes[i].size)) && Mapped(v, i, BlocksFor(off + t)))
    && (forall o :: 0 <= o < v0.inodes[i].size && (o < off || off + t <= o) ==>
          ByteAt(v, i, o) == ByteAt(v0, i, o))
    && (forall o :: off <= o < off + t ==> ByteAt(v, i, o) == src[o - off])
  }

  /** Mapping a block changes no byte of the file: a new block is clear. */
  lemma BmapBytes(sb: Super, v: Vol, w: Vol, i: nat, bn: nat, addr: nat)
    requires Owned(sb, v) && BmapDone(sb, v, w, i, bn, addr)
    ensures forall o :: 0 <= o < MAXBYTES ==> ByteAt(w, i, o) == ByteAt(v, i, o)
  {
    forall o | 0 <= o < MAXBYTES ensures ByteAt(w, i, o) == ByteAt(v, i, o) {
      var p := PosOf(o / BSIZE);
      if Name(v, i, p) != 0 {
        NameInRange(sb, v, i, p);
      }
    }
  }

  /** Mapping one more block keeps what was written. */
  lemma WrittenKept(sb: Super, v0: Vol, v: Vol, w: Vol, i: nat, off: nat, src: seq<byte>, t: nat, bn: nat, addr: nat)
    requires Written(sb, v0, v, i, off, src, t) && BmapDone(sb, v, w, i, bn, addr)
    ensures Written(sb, v0, w, i, off, src, t)
  {
    BmapBytes(sb, v, w, i, bn, addr);
    hide ByteAt;
    OthersSameTrans(v0, v, w, i);
  }

  /** How much of the rest goes into the current block. */
  function Chunk(n: nat, t: nat, off: nat): (m: nat)
    requires t < n
    ensures 1 <= m <= n - t && off % BSIZE + m <= BSIZE
  {
    if n - t < BSIZE - off % BSIZE then n - t else BSIZE - off % BSIZE
  }

  lemma SameBlock(o: nat, a: nat, m: nat)
    requires a % BSIZE + m <= BSIZE && a <= o < a + m
    ensures o / BSIZE == a / BSIZE && o % BSIZE == a % BSIZE + (o - a)
  {
  }

  lemma OtherBlock(o: nat, a: nat, m: nat)
    requires a % BSIZE + m <= BSIZE && (o < a || a + m <= o) && o / BSIZE == a / BSIZE
    ensures o % BSIZE < a % BSIZE || a % BSIZE + m <= o % BSIZE
  {
  }

  /** A byte of file i after block bn, named d, is overlaid. */
  lemma OverlayByte(sb: Super, v: Vol, i: nat, a: nat, data: seq<byte>, o: nat)
    requires Owned(sb, v) && a < MAXBYTES && a % BSIZE + |data| <= BSIZE && o < MAXBYTES
    requires Name(v, i, PosOf(a / BSIZE)) != 0
    ensures var d := Name(v, i, PosOf(a / BSIZE));
            && d < |v.blocks|
            && var w := PutBlock(v, d, Overlay(v.blocks[d], a % BSIZE, data));
               ByteAt(w, i, o) == if a <= o < a + |data| then data[o - a] else ByteAt(v, i, o)
  {
    var d := Name(v, i, PosOf(a / BSIZE));
    var nb := Overlay(v.blocks[d], a % BSIZE, data);
    var w := PutBlock(v, d, nb);
    PutDataOwned(sb, v, i, PosOf(a / BSIZE), nb);
    if a <= o < a + |data| {
      SameBlock(o, a, |data|);
    } else if o / BSIZE == a / BSIZE {
      OtherBlock(o, a, |data|);
    } else {
      assert PosOf(o / BSIZE) != PosOf(a / BSIZE);
      assert Name(w, i, PosOf(o / BSIZE)) == Name(v, i, PosOf(o / BSIZE));
    }
  }

  lemma OverlayOthers(sb: Super, v: Vol, i: nat, p: nat, nb: Block)
    requires Owned(sb, v) && p < NPOS && p != NDIRECT && Name(v, i, p) != 0
    ensures var d := Name(v, i, p); d < |v.blocks| && OthersSame(v, PutBlock(v, d, nb), i)
  {
    PutDataOwned(sb, v, i, p, nb);
    var d := Name(v, i, p);
    forall j, q | j != i && 0 <= q < NPOS ensures Name(v, j, q) != d {
    }
  }

  /** One pass of writei's loop writes the next chunk. */
  lemma WriteStep(sb: Super, v0: Vol, v: Vol, i: nat, off: nat, src: seq<byte>, t: nat)
    requires Written(sb, v0, v, i, off, src, t) && t < |src|
    requires Name(v, i, PosOf((off + t) / BSIZE)) != 0
    ensures var m := Chunk(|src|, t, off + t);
            var d := Name(v, i, PosOf((off + t) / BSIZE));
            && d < |v.blocks|
            && var nb := Overlay(v.blocks[d], (off + t) % BSIZE, src[t..t + m]);
               Written(sb, v0, PutBlock(v, d, nb), i, off, src, t + m)
  {
    hide Owned, OthersSame, ByteAt, Mapped, SameNames, Name, Overlay, BlocksFor;
    var m := Chunk(|src|, t, off + t);
    var a := off + t;
    var d := Name(v, i, PosOf(a / BSIZE));
    NameInRange(sb, v, i, PosOf(a / BSIZE));
    var nb := Overlay(v.blocks[d], a % BSIZE, src[t..t + m]);
    var w := PutBlock(v, d, nb);
    PutDataOwned(sb, v, i, PosOf(a / BSIZE), nb);
    OverlayOthers(sb, v, i, PosOf(a / BSIZE), nb);
    OthersSameTrans(v0, v, w, i);
    forall o | 0 <= o < MAXBYTES
      ensures ByteAt(w, i, o) == if a <= o < a + m then src[o - off] else ByteAt(v, i, o)
    {
      OverlayByte(sb, v, i, a, src[t..t + m], o);
    }
    if HoleFree(v0, i) {
      MappedMore(v, w, i, off + t, m);
      MappedSame(v, w, i, BlocksFor(v0.inodes[i].size));
    }
  }

  lemma MappedSame(v: Vol, w: Vol, i: nat, k: nat)
    requires SameNames(v, w) && Mapped(v, i, k)
    ensures Mapped(w, i, k)
  {
  }

  lemma MappedMore(v: Vol, w: Vol, i: nat, a: nat, m: nat)
    requires SameNames(v, w) && Mapped(v, i, BlocksFor(a)) && a + m <= MAXBYTES
    requires a % BSIZE + m <= BSIZE && m >= 1 && Name(v, i, PosOf(a / BSIZE)) != 0
    ensures Mapped(w, i, BlocksFor(a + m))
  {
    assert BlocksFor(a + m) == a / BSIZE + 1;
    assert BlocksFor(a) >= a / BSIZE;
  }

  /** Setting the size turns the written bytes into the spliced file. */
  lemma WrittenContents(sb: Super, v0: Vol, v: Vol, i: nat, off: nat, src: seq<byte>)
    requires Written(sb, v0, v, i, off, src, |src|)
    ensures var size := if |src| > 0 && off + |src| > v0.inodes[i].size then off + |src| else v0.inodes[i].size;
            var w := PutSize(v, i, size);
            && Owned(sb, w) && (HoleFree(v0, i) ==> HoleFree(w, i)) && OthersSame(v0, w, i)
            && Contents(w, i) == Splice(Contents(v0, i), off, src)
  {
    var size := if |src| > 0 && off + |src| > v0.inodes[i].size then off + |src| else v0.inodes[i].size;
    var w := PutSize(v, i, size);
    PutSizeOwned(sb, v, i, size);
    if HoleFree(v0, i) {
      MappedSame(v, w, i, BlocksFor(size));
    }
    forall o | 0 <= o < size ensures ByteAt(w, i, o) == ByteAt(v, i, o) {
    }
    assert OthersSame(v0, w, i);
    SplicedBytes(v0, w, i, off, src);
  }

  lemma SplicedBytes(v0: Vol, w: Vol, i: nat, off: nat, src: seq<byte>)
    requires i in v0.inodes && i in w.inodes && v0.inodes[i].size <= MAXBYTES && w.inodes[i].size <= MAXBYTES
    requires off <= v0.inodes[i].size
    requires w.inodes[i].size == if |src| > 0 && off + |src| > v0.inodes[i].size then off + |src| else v0.inodes[i].size
    requires forall o :: 0 <= o < v0.inodes[i].size && (o < off || off + |src| <= o) ==>
               ByteAt(w, i, o) == ByteAt(v0, i, o)
    requires forall o :: off <= o < off + |src| && o < MAXBYTES ==> ByteAt(w, i, o) == src[o - off]
    ensures Contents(w, i) == Splice(Contents(v0, i), off, src)
  {
    hide ByteAt;
    var c := Contents(w, i);
    var d := Splice(Contents(v0, i), off, src);
    assert |c| == |d|;
    forall o | 0 <= o < |c| ensures c[o] == d[o] {
    }
  }

  // ---------------------------------------------------------------- log entries of a write

  /** How many blocks writing n bytes at off touches. */
  function Touched(off: nat, n: nat): (k: nat) {
    if n == 0 then 0 else (off % BSIZE + n + BSIZE - 1) / BSIZE
  }

  /**
   A bound on the distinct blocks a write logs: its data blocks, a bitmap block for each but, in
   a file without holes, a partly filled first one, the indirect block, its bitmap block, and
   the inode's block.
   */
  function LogBound(off: nat, n: nat, whole: bool): (k: nat) {
    if n == 0 then 0
    else 2 * Touched(off, n) - (if whole && off % BSIZE != 0 then 1 else 0) + 3
  }

  /** The same bound on a volume whose bitmap is one block: that block counts once. */
  function LogBoundOneMap(off: nat, n: nat): (k: nat) {
    if n == 0 then 0 else Touched(off, n) + 3
  }

  const MAXOPBLOCKS := 10

  /** The most bytes filewrite passes to writei in one transaction. */
  const CHUNKMAX := ((MAXOPBLOCKS - 1 - 1 - 2) / 2) * 512

  /**
   A chunk of filewrite fits the space that begin_op reserves if the file has no holes, or the
   bitmap is one block; then it even keeps clear of the last three.
   */
  lemma ChunkFitsReservation(off: nat, n: nat)
    requires n <= CHUNKMAX
    ensures LogBound(off, n, true) <= MAXOPBLOCKS && LogBound(off, n, false) <= MAXOPBLOCKS + 1
    ensures LogBoundOneMap(off, n) <= MAXOPBLOCKS - 3
  {
    assert off % BSIZE < BSIZE;
  }

  lemma AddOne(s: set<nat>, x: nat)
    ensures |s + {x}| == |s| + (if x in s then 0 else 1)
  {
    if x in s {
      assert s + {x} == s;
    }
  }

  // ---------------------------------------------------------------- the file system

  /** What a call of bmap adds to the log. */
  function BmapLog(sb: Super, bn: nat, addr: nat, ind: nat, hadAddr: bool, hadInd: bool): (s: set<nat>) {
    if hadAddr then {}
    else
      {BBlock(sb, addr), addr}
      + (if bn < NDIRECT then {} else {ind})
      + (if bn < NDIRECT || hadInd then {} else {BBlock(sb, ind)})
  }

  /** The bitmap block that holds the bit of block b. */
  function BBlock(sb: Super, b: nat): (n: nat) {
    b / BPB + sb.bmapstart
  }

  /** The block that holds inode i. */
  function IBlock(sb: Super, i: nat): (n: nat) {
    i / IPB + sb.inodestart
  }

  /** What balloc does to the bitmap: the first clear bit is set, unless there is none. */
  ghost predicate FirstTaken(before: seq<bool>, after: seq<bool>, r: Option<nat>) {
    match r
    case Some(b) => b < |before| && !before[b] && (forall k :: 0 <= k < b ==> before[k]) && after == before[b := true]
    case None => after == before && forall k :: 0 <= k < |before| ==> before[k]
  }

  /** What bfree does to the bitmap: the bit is cleared, unless it is clear already. */
  ghost predicate GivenBack(before: seq<bool>, after: seq<bool>, b: nat, ok: bool) {
    b < |before| && ok == before[b] && after == if ok then before[b := false] else before
  }

  /** The slot of an inode that leads to block bn of its file. */
  function Slot(bn: nat): (k: nat)
    ensures k <= NDIRECT
  {
    if bn < NDIRECT then bn else NDIRECT
  }

  /** Block bn holds one of the n bytes at off. */
  predicate Touches(bn: nat, off: nat, n: nat) {
    n > 0 && off / BSIZE <= bn <= (off + n - 1) / BSIZE
  }

  /** The slots that lead to the n bytes at off are all filled. */
  ghost predicate SlotsThere(a: Addrs, off: nat, n: nat) {
    forall bn: nat :: Touches(bn, off, n) ==> a[Slot(bn)] != 0
  }

  /** Slot k of a has been filled if it was empty, giving b. */
  ghost predicate SlotSet(a: Addrs, b: Addrs, k: nat)
    requires k <= NDIRECT
  {
    b[k] != 0 && (a[k] != 0 ==> b == a) && (forall j :: 0 <= j <= NDIRECT && a[j] != 0 ==> b[j] == a[j])
  }

  /** The slots that lead to the n bytes at off have been filled where they were empty. */
  ghost predicate SlotsSet(a: Addrs, b: Addrs, off: nat, n: nat) {
    && (forall j :: 0 <= j <= NDIRECT && a[j] != 0 ==> b[j] == a[j])
    && SlotsThere(b, off, n) && (SlotsThere(a, off, n) ==> b == a)
  }

  lemma SlotsNone(a: Addrs, off: nat)
    ensures SlotsSet(a, a, off, 0)
  {
  }

  lemma SlotsSame(a: Addrs, b: Addrs, off: nat, n: nat)
    requires SlotsSet(a, b, off, n)
    ensures b == a <==> SlotsThere(a, off, n)
  {
  }

  lemma SlotsNext(a: Addrs, b: Addrs, c: Addrs, off: nat, n: nat, t: nat)
    requires SlotsSet(a, b, off, t) && t < n && SlotSet(b, c, Slot((off + t) / BSIZE))
    ensures SlotsSet(a, c, off, t + Chunk(n, t, off + t))
  {
    var u := t + Chunk(n, t, off + t);
    var at := (off + t) / BSIZE;
    assert (off + u - 1) / BSIZE == at;
    forall bn: nat ensures Touches(bn, off, u) <==> Touches(bn, off, t) || bn == at {
      TouchesNext(bn, off, t, u);
    }
    assert SlotsThere(a, off, u) ==> SlotsThere(a, off, t);
    assert SlotsThere(a, off, u) ==> a[Slot(at)] != 0 by { assert Touches(at, off, u); }
  }

  lemma TouchesNext(bn: nat, off: nat, t: nat, u: nat)
    requires t < u && (off + u - 1) / BSIZE == (off + t) / BSIZE
    requires t == 0 || (off + t - 1) / BSIZE >= (off + t) / BSIZE - 1
    ensures Touches(bn, off, u) <==> Touches(bn, off, t) || bn == (off + t) / BSIZE
  {
  }

  /** The inode that a volume holds under number i. */
  function InodeOf(v: Vol, i: nat): (r: Option<Inode>) {
    if i in v.inodes then Some(v.inodes[i]) else None
  }

  /** From v to w nothing has changed but in the blocks l: bits and inodes change where they are kept. */
  ghost predicate Framed(sb: Super, v: Vol, w: Vol, l: set<nat>) {
    && |w.bits| == |v.bits| && |w.blocks| == |v.blocks|
    && (forall b :: 0 <= b < |v.bits| && w.bits[b] != v.bits[b] ==> BBlock(sb, b) in l)
    && (forall b :: 0 <= b < |v.blocks| && w.blocks[b] != v.blocks[b] ==> b in l)
    && (forall i: nat :: InodeOf(w, i) != InodeOf(v, i) ==> IBlock(sb, i) in l)
  }

  /** Block b is named by file i. */
  ghost predicate NamedBy(v: Vol, i: nat, b: nat) {
    b != 0 && exists p :: 0 <= p < NPOS && Name(v, i, p) == b
  }

  /**
   From v to w file i has kept its blocks and taken free ones, all of which it names; and only
   blocks of both kinds have changed.
   */
  ghost predicate Grown(v: Vol, w: Vol, i: nat) {
    && |w.bits| == |v.bits| == |v.blocks| == |w.blocks|
    && (forall b :: 0 <= b < |v.bits| && v.bits[b] ==> w.bits[b])
    && (forall b: nat :: b < |v.bits| && w.bits[b] && !v.bits[b] ==> NamedBy(w, i, b))
    && (forall b: nat :: b < |v.blocks| && w.blocks[b] != v.blocks[b] ==> NamedBy(w, i, b) || !v.bits[b])
    && (forall p :: 0 <= p < NPOS && Name(v, i, p) != 0 ==> Name(w, i, p) == Name(v, i, p))
    && (forall p :: 0 <= p < NPOS && Name(w, i, p) != Name(v, i, p) ==>
          Name(w, i, p) < |v.bits| && !v.bits[Name(w, i, p)])
  }

  lemma GrownNone(sb: Super, v: Vol, i: nat)
    requires WellSized(sb, v)
    ensures Grown(v, v, i)
  {
  }

  lemma GrownTrans(u: Vol, v: Vol, w: Vol, i: nat)
    requires Grown(u, v, i) && Grown(v, w, i)
    ensures Grown(u, w, i)
  {
    hide Name, NamedBy;
    forall b: nat ensures NamedBy(v, i, b) ==> NamedBy(w, i, b) {
      StillNamed(v, w, i, b);
    }
  }

  lemma StillNamed(v: Vol, w: Vol, i: nat, b: nat)
    requires forall p :: 0 <= p < NPOS && Name(v, i, p) != 0 ==> Name(w, i, p) == Name(v, i, p)
    ensures NamedBy(v, i, b) ==> NamedBy(w, i, b)
  {
    hide Name;
    if NamedBy(v, i, b) {
      var p :| 0 <= p < NPOS && Name(v, i, p) == b;
      assert Name(w, i, p) == b;
    }
  }

  // ---------------------------------------------------------------- no block is lost

  /** Every data block marked in use is named by some file. */
  ghost predicate NoLeak(sb: Super, v: Vol) {
    forall b: nat :: sb.IsData(b) && b < |v.bits| && v.bits[b] ==> Used(v, b)
  }

  ghost predicate Used(v: Vol, b: nat) {
    exists i: nat :: NamedBy(v, i, b)
  }

  /** A file that grows loses no block. */
  lemma GrownNoLeak(sb: Super, v: Vol, w: Vol, i: nat)
    requires Grown(v, w, i) && OthersSame(v, w, i)
    ensures NoLeak(sb, v) ==> NoLeak(sb, w)
  {
    hide Name, NamedBy;
    if NoLeak(sb, v) {
      forall b: nat | sb.IsData(b) && b < |w.bits| && w.bits[b] ensures Used(w, b) {
        if v.bits[b] {
          var j: nat :| NamedBy(v, j, b);
          StillNamed(v, w, j, b);
        }
      }
    }
  }

  /** Nor does a file that is truncated. */
  lemma TruncatedNoLeak(sb: Super, v: Vol, w: Vol, i: nat)
    requires Truncated(sb, v, w, i)
    ensures NoLeak(sb, v) ==> NoLeak(sb, w)
  {
    hide Name, Owned;
    OwnedSized(sb, w);
    if NoLeak(sb, v) {
      forall b: nat | sb.IsData(b) && 0 < b < |w.bits| && w.bits[b] ensures Used(w, b) {
        var j: nat :| NamedBy(v, j, b);
        assert j != i;
        StillNamed(v, w, j, b);
      }
    }
  }

  /** A free block is taken and named in an empty slot. */
  lemma GrownSlot(sb: Super, v: Vol, i: nat, s: nat, b: nat)
    requires Owned(sb, v) && b < sb.size && !v.bits[b] && i in v.inodes && s <= NDIRECT && Name(v, i, s) == 0
    ensures Grown(v, PutAddr(Take(v, b), i, s, b), i)
  {
    TakeOwned(sb, v, b);
    PutAddrOwned(sb, Take(v, b), i, s, b);
    hide Name, Owned;
  }

  /** A free block is taken and named in an empty entry of the indirect block. */
  lemma GrownEntry(sb: Super, v: Vol, i: nat, k: nat, b: nat)
    requires Owned(sb, v) && b < sb.size && !v.bits[b] && i in v.inodes && k < NINDIRECT && Name(v, i, NDIRECT) != 0
    requires Name(v, i, NDIRECT + 1 + k) == 0
    ensures var ind, u := Name(v, i, NDIRECT), Take(v, b);
      ind < |u.blocks| && Grown(v, PutBlock(u, ind, PutWord(u.blocks[ind], k, b)), i)
  {
    TakeOwned(sb, v, b);
    PutWordOwned(sb, Take(v, b), i, k, b);
    hide Name, Owned;
  }

  /** A data block of the file is written. */
  lemma GrownData(sb: Super, v: Vol, i: nat, p: nat, nb: Block)
    requires Owned(sb, v) && p < NPOS && p != NDIRECT && Name(v, i, p) != 0
    ensures Name(v, i, p) < |v.blocks| && Grown(v, PutBlock(v, Name(v, i, p), nb), i)
  {
    PutDataOwned(sb, v, i, p, nb);
    NameInRange(sb, v, i, p);
    hide Name, Owned;
  }

  lemma GrownSize(sb: Super, v: Vol, i: nat, size: nat)
    requires WellSized(sb, v) && i in v.inodes
    ensures Grown(v, PutSize(v, i, size), i)
  {
    var w := PutSize(v, i, size);
    forall p | 0 <= p < NPOS ensures Name(w, i, p) == Name(v, i, p) {
    }
  }

  /** The bits that have changed are in blocks logged since, and no other block is. */
  ghost predicate BitsLogged(sb: Super, b0: seq<bool>, bits: seq<bool>, l0: set<nat>, l: set<nat>) {
    && |bits| == |b0| && l0 <= l
    && (forall b :: 0 <= b < |bits| && bits[b] != b0[b] ==> BBlock(sb, b) in l)
    && (sb.size <= BPB ==> l <= l0 + {sb.bmapstart})
  }

  lemma NoBitsLogged(sb: Super, bits: seq<bool>, l: set<nat>)
    ensures BitsLogged(sb, bits, bits, l, l)
  {
  }

  lemma BitLogged(sb: Super, b0: seq<bool>, bits: seq<bool>, l0: set<nat>, l: set<nat>, b: nat)
    requires BitsLogged(sb, b0, bits, l0, l) && b < sb.size && b < |bits|
    ensures BitsLogged(sb, b0, bits[b := false], l0, l + {BBlock(sb, b)})
  {
  }

  lemma FramedBits(sb: Super, v: Vol, w: Vol, i: nat, l0: set<nat>, l: set<nat>, l': set<nat>)
    requires BitsLogged(sb, v.bits, w.bits, l0, l) && w.blocks == v.blocks && l' == l + {IBlock(sb, i)}
    requires i in w.inodes && w.inodes == v.inodes[i := w.inodes[i]]
    ensures Framed(sb, v, w, l') && l0 <= l' && (sb.size <= BPB ==> l' <= l0 + {sb.bmapstart, IBlock(sb, i)})
  {
  }

  lemma FramedTrans(sb: Super, u: Vol, v: Vol, w: Vol, k: set<nat>, l: set<nat>)
    requires Framed(sb, u, v, k) && Framed(sb, v, w, l) && k <= l
    ensures Framed(sb, u, w, l)
  {
  }

  lemma FramedNone(sb: Super, v: Vol, l: set<nat>)
    ensures Framed(sb, v, v, l)
  {
  }

  lemma FramedInode(sb: Super, v: Vol, w: Vol, i: nat, l: set<nat>)
    requires IBlock(sb, i) in l && i in w.inodes && w == v.(inodes := v.inodes[i := w.inodes[i]])
    ensures Framed(sb, v, w, l)
  {
  }

  lemma FramedBlock(sb: Super, v: Vol, b: nat, data: Block, l: set<nat>)
    requires b < |v.blocks| && b in l
    ensures Framed(sb, v, PutBlock(v, b, data), l)
  {
  }

  class FileSystem {
    const sb: Super
    var bits: seq<bool>           // the free bitmap
    var blocks: seq<Block>        // block contents as the buffer cache shows them
    var inodes: map<nat, Inode>   // in-memory inodes
    var dinodes: map<nat, Inode>  // the copies in the inode blocks
    var logged: set<nat>          // blocks log_write has recorded in this transaction
    ghost var ops: seq<set<nat>>  // what the ended transactions logged

    ghost function V(): (v: Vol)
      reads this
    {
      Vol(bits, blocks, inodes)
    }

    /** The volume with the inodes as their blocks hold them. */
    ghost function D(): (v: Vol)
      reads this
    {
      Vol(bits, blocks, dinodes)
    }

    /** Zero a block. */
    method Bzero(b: nat)
      requires b < |blocks|
      modifies this`blocks, this`logged
      ensures blocks == old(blocks)[b := ZeroBlock()] && logged == old(logged) + {b}
    {
      blocks := blocks[b := ZeroBlock()];
      logged := logged + {b};
    }

    /** Allocate and clear the first free block; None is the panic "out of blocks". */
    method Balloc() returns (r: Option<nat>)
      requires WellSized(sb, V())
      modifies this`bits, this`blocks, this`logged
      ensures FirstTaken(old(bits), bits, r)
      ensures r.None? ==> V() == old(V()) && logged == old(logged) && Full(sb, V())
      ensures r.Some? ==>
        && r.value < sb.size && !old(bits)[r.value] && V() == Take(old(V()), r.value)
        && logged == old(logged) + {BBlock(sb, r.value), r.value}
    {
      var b := 0;
      while b < sb.size
        invariant 0 <= b
        invariant forall k :: 0 <= k < b && k < sb.size ==> bits[k]
      {
        var bi := 0;
        while bi < BPB && b + bi < sb.size
          invariant 0 <= bi <= BPB
          invariant forall k :: 0 <= k < b + bi && k < sb.size ==> bits[k]
        {
          if !bits[b + bi] {
            bits := bits[b + bi := true];
            logged := logged + {BBlock(sb, b + bi)};
            Bzero(b + bi);
            assert logged == old(logged) + {BBlock(sb, b + bi), b + bi};
            return Some(b + bi);
          }
          bi := bi + 1;
        }
        b := b + BPB;
      }
      r := None;
    }

    /** Free a block; false is the panic "freeing free block". */
    method Bfree(b: nat) returns (ok: bool)
      requires WellSized(sb, V()) && b < sb.size
      modifies this`bits, this`logged
      ensures GivenBack(old(bits), bits, b, ok)
      ensures logged == if ok then old(logged) + {BBlock(sb, b)} else old(logged)
    {
      if !bits[b] {
        return false;
      }
      bits := bits[b := false];
      logged := logged + {BBlock(sb, b)};
      ok := true;
    }

    /** Copy an in-memory inode to its inode block. */
    method Iupdate(i: nat)
      requires i in inodes
      modifies this`dinodes, this`logged
      ensures dinodes == old(dinodes)[i := inodes[i]] && logged == old(logged) + {IBlock(sb, i)}
    {
      dinodes := dinodes[i := inodes[i]];
      logged := logged + {IBlock(sb, i)};
    }

    /** A new block for an empty place of inode i, not yet named. */
    method BallocFor(i: nat) returns (r: Option<nat>)
      requires Owned(sb, V()) && i in inodes
      modifies this`bits, this`blocks, this`logged
      ensures r.None? ==> V() == old(V()) && logged == old(logged) && Full(sb, V())
      ensures r.Some? ==>
        && Owned(sb, V()) && Kept(old(V()), V(), i) && SameNames(old(V()), V())
        && sb.IsData(r.value) && r.value != 0 && bits[r.value] && Unnamed(V(), r.value)
        && blocks[r.value] == ZeroBlock() && inodes == old(inodes)
        && logged == old(logged) + {BBlock(sb, r.value), r.value} && Framed(sb, old(D()), D(), logged)
        && V() == Take(old(V()), r.value) && !old(bits)[r.value]
    {
      r := Balloc();
      if r.Some? {
        TakeOwned(sb, old(V()), r.value);
        TakeKept(sb, old(V()), i, r.value);
      }
    }

    /** A direct block of file i, allocated if absent. */
    method BmapDirect(i: nat, bn: nat) returns (r: Option<nat>)
      requires Owned(sb, V()) && i in inodes && bn < NDIRECT
      modifies this`bits, this`blocks, this`inodes, this`logged
      ensures r.Some? ==> BmapDone(sb, old(V()), V(), i, bn, r.value)
      ensures r.Some? ==>
        && logged == old(logged) + BmapLog(sb, bn, r.value, 0, Name(old(V()), i, bn) != 0, true)
        && Framed(sb, old(D()), D(), logged) && SlotSet(old(inodes)[i].addrs, inodes[i].addrs, bn)
        && Grown(old(V()), V(), i)
      ensures r.None? ==> Name(old(V()), i, bn) == 0 && Full(sb, V())
    {
      var addr := inodes[i].addrs[bn];
      if addr == 0 {
        var a := BallocFor(i);
        if a.None? {
          return None;
        }
        addr := a.value;
        ghost var v1 := V();
        PutAddrOwned(sb, v1, i, bn, addr);
        PutAddrKept(sb, v1, i, bn, addr);
        inodes := inodes[i := inodes[i].(addrs := inodes[i].addrs[bn := addr])];
        KeptTrans(old(V()), v1, V(), i);
        GrownSlot(sb, old(V()), i, bn, addr);
      } else {
        KeptRefl(V(), i);
        GrownNone(sb, V(), i);
      }
      r := Some(addr);
    }

    /** The indirect block of file i, allocated if absent. */
    method IndirectBlock(i: nat) returns (r: Option<nat>)
      requires Owned(sb, V()) && i in inodes
      modifies this`bits, this`blocks, this`inodes, this`logged
      ensures r.Some? ==>
        && Owned(sb, V()) && Kept(old(V()), V(), i) && r.value != 0 && Name(V(), i, NDIRECT) == r.value
        && SameNamesExcept(old(V()), V(), i, NDIRECT)
        && (Name(old(V()), i, NDIRECT) != 0 ==> V() == old(V()) && logged == old(logged))
        && (Name(old(V()), i, NDIRECT) == 0 ==> logged == old(logged) + {BBlock(sb, r.value), r.value})
        && Framed(sb, old(D()), D(), logged) && SlotSet(old(inodes)[i].addrs, inodes[i].addrs, NDIRECT)
        && Grown(old(V()), V(), i)
      ensures r.None? ==> Name(old(V()), i, NDIRECT) == 0 && Full(sb, V())
    {
      var addr := inodes[i].addrs[NDIRECT];
      if addr == 0 {
        var a := BallocFor(i);
        if a.None? {
          return None;
        }
        addr := a.value;
        ghost var v1 := V();
        PutAddrOwned(sb, v1, i, NDIRECT, addr);
        PutAddrKept(sb, v1, i, NDIRECT, addr);
        inodes := inodes[i := inodes[i].(addrs := inodes[i].addrs[NDIRECT := addr])];
        KeptTrans(old(V()), v1, V(), i);
        GrownSlot(sb, old(V()), i, NDIRECT, addr);
      } else {
        KeptRefl(V(), i);
        GrownNone(sb, V(), i);
      }
      r := Some(addr);
    }

    /** Entry k of the indirect block of file i, allocated if absent. */
    method IndirectEntry(i: nat, ind: nat, k: nat) returns (r: Option<nat>)
      requires Owned(sb, V()) && i in inodes && k < NINDIRECT && ind != 0 && Name(V(), i, NDIRECT) == ind
      modifies this`bits, this`blocks, this`logged
      ensures r.Some? ==>
        && BmapDone(sb, old(V()), V(), i, NDIRECT + k, r.value) && Name(V(), i, NDIRECT) == ind
        && logged == old(logged) + BmapLog(sb, NDIRECT + k, r.value, ind, Name(old(V()), i, NDIRECT + 1 + k) != 0, true)
        && Framed(sb, old(D()), D(), logged) && Grown(old(V()), V(), i)
      ensures r.None? ==> Name(old(V()), i, NDIRECT + 1 + k) == 0 && Full(sb, V())
    {
      NameInRange(sb, V(), i, NDIRECT);
      var addr := Word(blocks[ind], k);
      if addr == 0 {
        var a := BallocFor(i);
        if a.None? {
          return None;
        }
        addr := a.value;
        ghost var v1 := V();
        PutWordOwned(sb, v1, i, k, addr);
        PutWordKept(sb, v1, i, k, addr);
        ghost var d1, l1 := D(), logged;
        blocks := blocks[ind := PutWord(blocks[ind], k, addr)];
        logged := logged + {ind};
        KeptTrans(old(V()), v1, V(), i);
        FramedBlock(sb, d1, ind, blocks[ind], logged);
        FramedTrans(sb, old(D()), d1, D(), l1, logged);
        GrownEntry(sb, old(V()), i, k, addr);
      } else {
        KeptRefl(V(), i);
        GrownNone(sb, V(), i);
      }
      r := Some(addr);
    }

    /** The disk block of block bn of file i, allocated if absent; None is a panic. */
    method Bmap(i: nat, bn: nat) returns (r: Option<nat>)
      requires Owned(sb, V()) && i in inodes
      modifies this`bits, this`blocks, this`inodes, this`logged
      ensures r.Some? ==>
        && BmapDone(sb, old(V()), V(), i, bn, r.value)
        && logged == old(logged) + BmapLog(sb, bn, r.value, Name(V(), i, NDIRECT),
                                           Name(old(V()), i, PosOf(bn)) != 0, Name(old(V()), i, NDIRECT) != 0)
        && Framed(sb, old(D()), D(), logged) && SlotSet(old(inodes)[i].addrs, inodes[i].addrs, Slot(bn))
        && Grown(old(V()), V(), i)
      ensures r.None? ==> bn >= MAXFILE || (Name(old(V()), i, PosOf(bn)) == 0 && Full(sb, V()))
    {
      hide Owned, SameNamesExcept, Full, Framed, SlotSet, Grown;
      if bn < NDIRECT {
        r := BmapDirect(i, bn);
        return;
      }
      if bn - NDIRECT < NINDIRECT {
        NoIndirect(V(), i, bn);
        var ind := IndirectBlock(i);
        if ind.None? {
          return None;
        }
        ghost var v1 := V();
        ghost var d1, l1 := D(), logged;
        EntryKept(old(V()), v1, i, bn);
        r := IndirectEntry(i, ind.value, bn - NDIRECT);
        if r.Some? {
          KeptTrans(old(V()), v1, V(), i);
          FramedTrans(sb, old(D()), d1, D(), l1, logged);
          GrownTrans(old(V()), v1, V(), i);
        }
        return;
      }
      r := None;
    }

    /** The body of writei's loop: map the next block and write a chunk into it. */
    method WriteChunk(i: nat, src: seq<byte>, off: nat, tot: nat, ghost v0: Vol, ghost c: Tally, ghost l0: nat)
      returns (m: Option<nat>, ghost d: Tally)
      requires Written(sb, v0, V(), i, off, src, tot) && tot < |src|
      requires Counted(c, HoleFree(v0, i), off, |src|, tot) && Tallied(sb, logged, l0, c, Name(V(), i, NDIRECT))
      requires i in inodes && i in v0.inodes && SlotsSet(v0.inodes[i].addrs, inodes[i].addrs, off, tot)
      modifies this`bits, this`blocks, this`inodes, this`logged
      ensures (off + tot) / BSIZE < MAXFILE
      ensures m.None? ==> Full(sb, V()) && Name(old(V()), i, PosOf((off + tot) / BSIZE)) == 0
      ensures m.Some? ==>
        && m.value == Chunk(|src|, tot, off + tot) && Name(V(), i, PosOf((off + tot) / BSIZE)) != 0
        && Written(sb, v0, V(), i, off, src, tot + m.value)
        && Counted(d, HoleFree(v0, i), off, |src|, tot + m.value) && Tallied(sb, logged, l0, d, Name(V(), i, NDIRECT))
        && (HoleFree(v0, i) && off + tot < v0.inodes[i].size ==> inodes == old(inodes))
        && old(logged) <= logged && Framed(sb, old(D()), D(), logged)
        && i in inodes && i in v0.inodes && SlotsSet(v0.inodes[i].addrs, inodes[i].addrs, off, tot + m.value)
        && Grown(old(V()), V(), i)
    {
      hide Owned, HoleFree, OthersSame, ByteAt, Overlay, Chunk, Kept, Name, Written, Full, Framed;
      hide BmapLog, BmapDone, Counted, Tallied, SlotsSet, SlotSet, Grown;
      var bn := (off + tot) / BSIZE;
      ghost var v := V();
      WrittenRange(sb, v0, v, i, off, src, tot);
      var addr := Bmap(i, bn);
      d := c;
      if addr.None? {
        return None, c;
      }
      ghost var hadAddr := Name(v, i, PosOf(bn)) != 0;
      ghost var hadInd := Name(v, i, NDIRECT) != 0;
      ghost var w := V();
      BmapSizes(sb, v, w, i, bn, addr.value);
      TallyNext(sb, old(logged), l0, c, bn, addr.value, Name(w, i, NDIRECT), Name(v, i, NDIRECT), hadAddr);
      WrittenKept(sb, v0, v, w, i, off, src, tot, bn, addr.value);
      WriteStep(sb, v0, w, i, off, src, tot);
      var k := Chunk(|src|, tot, off + tot);
      ghost var d1, l1 := D(), logged;
      blocks := blocks[addr.value := Overlay(blocks[addr.value], (off + tot) % BSIZE, src[tot..tot + k])];
      logged := logged + {addr.value};
      FramedBlock(sb, d1, addr.value, blocks[addr.value], logged);
      FramedTrans(sb, old(D()), d1, D(), l1, logged);
      GrownData(sb, w, i, PosOf(bn), blocks[addr.value]);
      GrownNamed(w, V(), i, PosOf(bn));
      GrownTrans(v, w, V(), i);
      SameInd(w, V(), i);
      d := Next(c, bn, hadAddr, hadInd);
      CountedNext(c, HoleFree(v0, i), off, |src|, tot, bn, hadAddr, hadInd);
      WrittenInode(sb, v0, w, i, off, src, tot);
      SlotsNext(v0.inodes[i].addrs, v.inodes[i].addrs, inodes[i].addrs, off, |src|, tot);
      m := Some(k);
    }

    /** writei's loop: write src chunk by chunk; false is a panic for want of blocks. */
    method WriteLoop(i: nat, src: seq<byte>, off: nat) returns (ok: bool)
      requires Written(sb, V(), V(), i, off, src, 0)
      modifies this`bits, this`blocks, this`inodes, this`logged
      ensures !ok ==> Full(sb, V()) && Missing(old(V()), i, off, |src|)
      ensures ok ==> Written(sb, old(V()), V(), i, off, src, |src|) && !Missing(V(), i, off, |src|)
      ensures ok ==> Room(sb, |logged| + (if src == [] then 0 else 1), |old(logged)|, off, |src|, HoleFree(old(V()), i))
      ensures ok && HoleFree(old(V()), i) && off + |src| <= old(inodes)[i].size ==> inodes == old(inodes)
      ensures ok ==> old(logged) <= logged && Framed(sb, old(D()), D(), logged)
      ensures ok ==> SlotsSet(old(inodes)[i].addrs, inodes[i].addrs, off, |src|) && Grown(old(V()), V(), i)
    {
      hide Written, Counted, Name, Room, Full, HoleFree, Tallied, Framed, SlotsSet, Grown, Missing, Chunk;
      FramedNone(sb, D(), logged);
      WrittenGrown(sb, V(), V(), i, off, src, 0);
      ghost var v0 := V();
      ghost var l0 := |logged|;
      ghost var c := Tally(0, 0, false, false);
      CountedStart(HoleFree(v0, i), off, |src|);
      TalliedStart(sb, logged, Name(v0, i, NDIRECT));
      WrittenInode(sb, v0, v0, i, off, src, 0);
      SlotsNone(inodes[i].addrs, off);
      NoneMissing(v0, i, off);
      var n := |src|;
      var tot := 0;
      while tot < n
        invariant Written(sb, v0, V(), i, off, src, tot) && tot <= n
        invariant Counted(c, HoleFree(v0, i), off, n, tot) && Tallied(sb, logged, l0, c, Name(V(), i, NDIRECT))
        invariant HoleFree(v0, i) && off + tot <= v0.inodes[i].size ==> inodes == old(inodes)
        invariant old(logged) <= logged && Framed(sb, old(D()), D(), logged)
        invariant i in inodes && SlotsSet(v0.inodes[i].addrs, inodes[i].addrs, off, tot) && Grown(v0, V(), i)
        invariant !Missing(V(), i, off, tot)
      {
        var m;
        ghost var v1, d1, l1 := V(), D(), logged;
        m, c := WriteChunk(i, src, off, tot, v0, c, l0);
        if m.None? {
          MissingBefore(v0, v1, i, off, n, tot);
          return false;
        }
        MissingAfter(v1, V(), i, off, n, tot);
        FramedTrans(sb, old(D()), d1, D(), l1, logged);
        GrownTrans(v0, v1, V(), i);
        tot := tot + m.value;
      }
      CountedBound(sb, logged, l0, c, Name(V(), i, NDIRECT), HoleFree(v0, i), off, n);
      ok := true;
    }

    /** The end of writei: a file that has grown gets its new size, here and on disk. */
    method EndWrite(i: nat, src: seq<byte>, off: nat, ghost v0: Vol)
      requires Written(sb, v0, V(), i, off, src, |src|) && Grown(v0, V(), i) && !Missing(V(), i, off, |src|)
      requires i in inodes && i in v0.inodes && inodes[i].size == v0.inodes[i].size
      modifies this`inodes, this`dinodes, this`logged
      ensures WroteFile(sb, v0, V(), i, src, off) && !Missing(V(), i, off, |src|)
      ensures Grown(v0, V(), i) && (NoLeak(sb, v0) ==> NoLeak(sb, V()))
      ensures i in inodes && inodes[i].addrs == old(inodes)[i].addrs
      ensures if |src| > 0 && off + |src| > v0.inodes[i].size
              then dinodes == old(dinodes)[i := inodes[i]] && logged == old(logged) + {IBlock(sb, i)}
              else inodes == old(inodes) && dinodes == old(dinodes) && logged == old(logged)
      ensures Framed(sb, old(D()), D(), logged)
    {
      hide Owned, HoleFree, Written, WroteFile, Framed, Grown, Missing, NoLeak;
      WroteWhole(sb, v0, V(), i, off, src);
      FramedNone(sb, D(), logged);
      if |src| > 0 && off + |src| > inodes[i].size {
        ghost var v1, d1 := V(), D();
        inodes := inodes[i := inodes[i].(size := off + |src|)];
        Iupdate(i);
        WrittenGrown(sb, v0, v1, i, off, src, |src|);
        GrownSize(sb, v1, i, off + |src|);
        MissingSized(v1, i, off + |src|, off, |src|);
        GrownTrans(v0, v1, V(), i);
        FramedInode(sb, d1, D(), i, logged);
      } else {
        SameSize(V(), i);
      }
      WroteOthers(sb, v0, V(), i, src, off);
      GrownNoLeak(sb, v0, V(), i);
    }

    /**
     writei. It fails, changing nothing, exactly when the range is bad; otherwise, unless it
     panics for want of blocks, the file becomes the spliced byte sequence, nothing changes for
     any other file, and the number of blocks logged is bounded. The inode on disk stays a true
     copy exactly if the file grows or the slots that lead to the bytes written are all filled
     already, which is so for a file without holes.
     */
    method Writei(i: nat, src: seq<byte>, off: nat) returns (r: Outcome)
      requires Owned(sb, V()) && SizeOk(V(), i) && off < UINT && |src| < UINT
      modifies this`bits, this`blocks, this`inodes, this`dinodes, this`logged
      ensures r == Panic ==> Full(sb, V()) && Missing(old(V()), i, off, |src|)
      ensures r == Ret(-1) <==> off > old(inodes)[i].size || off + |src| > MAXBYTES
      ensures r == Ret(-1) ==> V() == old(V()) && dinodes == old(dinodes) && logged == old(logged)
      ensures r.Ret? && r.n != -1 ==>
        r.n == |src| && WroteFile(sb, old(V()), V(), i, src, off) && !Missing(V(), i, off, |src|)
      ensures r.Ret? && r.n != -1 ==> Room(sb, |logged|, |old(logged)|, off, |src|, HoleFree(old(V()), i))
      ensures r.Ret? && r.n != -1 && i in old(dinodes) && old(dinodes)[i] == old(inodes)[i] ==>
        && i in dinodes && i in inodes
        && (dinodes[i] == inodes[i] <==>
            (|src| > 0 && off + |src| > old(inodes)[i].size) || SlotsThere(old(inodes)[i].addrs, off, |src|))
      ensures r.Ret? && r.n != -1 && HoleFree(old(V()), i) ==> UpToDate(old(inodes), old(dinodes), inodes, dinodes, i)
      ensures r.Ret? ==> old(logged) <= logged && Framed(sb, old(D()), D(), logged)
      ensures r.Ret? ==> dinodes == old(dinodes) || (i in inodes && dinodes == old(dinodes)[i := inodes[i]])
      ensures r.Ret? ==> Grown(old(V()), V(), i) && (NoLeak(sb, old(V())) ==> NoLeak(sb, V()))
    {
      hide Owned, HoleFree, Written, LogBound, LogBoundOneMap, WroteFile, Full, Framed, SlotsSet, SlotsThere, Grown;
      hide Missing, NoLeak;
      FramedNone(sb, D(), logged);
      OwnedSized(sb, V());
      GrownNone(sb, V(), i);
      RangeOk(inodes[i].size, off, |src|);
      if off > inodes[i].size || (off + |src|) % UINT < off {
        return Ret(-1);
      }
      if (off + |src|) % UINT > MAXFILE * BSIZE {
        return Ret(-1);
      }
      ghost var v0 := V();
      WrittenStart(sb, v0, i, off, src);
      var ok := WriteLoop(i, src, off);
      if !ok {
        return Panic;
      }
      WrittenInode(sb, v0, V(), i, off, src, |src|);
      SlotsSame(v0.inodes[i].addrs, inodes[i].addrs, off, |src|);
      ghost var d1, l1 := D(), logged;
      AddOne(logged, IBlock(sb, i));
      EndWrite(i, src, off, v0);
      FramedTrans(sb, old(D()), d1, D(), l1, logged);
      r := Ret(|src|);
    }

    /**
     The body of readi's loop: the part of the file at o that one block holds. None is a panic: a
     missing block is allocated, which needs a free block and, for log_write, an open transaction.
     */
    method ReadChunk(i: nat, n: nat, tot: nat, o: nat, open: bool) returns (data: Option<seq<byte>>)
      requires Owned(sb, V()) && SizeOk(V(), i) && tot < n && o + (n - tot) <= inodes[i].size
      modifies this`bits, this`blocks, this`inodes, this`logged
      ensures o / BSIZE < MAXFILE
      ensures data.None? ==> Name(old(V()), i, PosOf(o / BSIZE)) == 0 && (open ==> Full(sb, V()))
      ensures data.Some? ==>
        && ReadFile(sb, old(V()), V(), i) && (HoleFree(old(V()), i) ==> logged == old(logged))
        && (open || Name(old(V()), i, PosOf(o / BSIZE)) != 0)
        && (Name(old(V()), i, PosOf(o / BSIZE)) != 0 ==> V() == old(V()))
        && i in inodes && SlotSet(old(inodes)[i].addrs, inodes[i].addrs, Slot(o / BSIZE))
        && |data.value| == Chunk(n, tot, o) && data.value == Contents(V(), i)[o..o + |data.value|]
    {
      hide Owned, ByteAt, Name, Full, Contents, Mapped, Kept, ReadFile, BmapDone, SlotSet, Grown;
      ghost var v := V();
      BlockThere(sb, v, i, o);
      if !open && Name(Vol(bits, blocks, inodes), i, PosOf(o / BSIZE)) == 0 {
        return None;
      }
      var addr := Bmap(i, o / BSIZE);
      if addr.None? {
        return None;
      }
      BmapRead(sb, v, V(), i, o / BSIZE, addr.value);
      var m := Chunk(n, tot, o);
      data := Some(blocks[addr.value][o % BSIZE..o % BSIZE + m]);
      ReadOn(sb, v, V(), i);
      ChunkRead(sb, V(), i, o, m, data.value);
    }

    /**
     readi: the bytes of the file from off, at most n of them; open says whether a transaction is
     open. It fails exactly when off lies past the end or off + n overflows. A missing block is
     allocated, which changes no byte, and leaves the inode on disk behind exactly if a slot was
     empty; outside a transaction a missing block is a panic, and otherwise nothing changes.
     */
    method Readi(i: nat, off: nat, n: nat, open: bool) returns (r: Outcome, dst: seq<byte>)
      requires Owned(sb, V()) && SizeOk(V(), i) && off < UINT && n < UINT
      modifies this`bits, this`blocks, this`inodes, this`logged
      ensures r == Ret(-1) <==> off > old(inodes)[i].size || off + n >= UINT
      ensures r == Ret(-1) ==> V() == old(V()) && logged == old(logged)
      ensures r == Panic ==>
        && off <= old(inodes)[i].size && (open ==> Full(sb, V()))
        && Missing(old(V()), i, off, if off + n > old(inodes)[i].size then old(inodes)[i].size - off else n)
      ensures r.Ret? ==> ReadFile(sb, old(V()), V(), i) && (HoleFree(old(V()), i) ==> logged == old(logged))
      ensures r.Ret? && r != Ret(-1) ==>
        && off <= old(inodes)[i].size && r == Ret(|dst|)
        && (off + n <= old(inodes)[i].size ==> |dst| == n)
        && (off + n > old(inodes)[i].size ==> off + |dst| == old(inodes)[i].size)
        && dst == Contents(old(V()), i)[off..off + |dst|]
        && i in inodes && (inodes[i].addrs == old(inodes)[i].addrs <==> SlotsThere(old(inodes)[i].addrs, off, |dst|))
        && (!open ==> V() == old(V()) && !Missing(old(V()), i, off, |dst|))
    {
      hide Owned, HoleFree, Contents, Chunk, ReadFile, Full, SlotsSet, SlotSet, SlotsThere, Name, Missing;
      ghost var v := V();
      ReadNone(sb, v, i);
      dst := [];
      if off > inodes[i].size || (off + n) % UINT < off {
        return Ret(-1), dst;
      }
      var n := n;
      if off + n > inodes[i].size {
        n := inodes[i].size - off;
      }
      SlotsNone(inodes[i].addrs, off);
      NoneMissing(v, i, off);
      var tot := 0;
      while tot < n
        invariant ReadFile(sb, v, V(), i) && (HoleFree(v, i) ==> logged == old(logged))
        invariant 0 <= tot == |dst| <= n && dst == Contents(v, i)[off..off + tot]
        invariant i in inodes && SlotsSet(v.inodes[i].addrs, inodes[i].addrs, off, tot)
        invariant !open ==> V() == v && !Missing(v, i, off, tot)
      {
        ReadOn(sb, v, V(), i);
        ghost var u := V();
        var data := ReadChunk(i, n, tot, off + tot, open);
        MissingNext(sb, v, u, i, off, n, tot);
        if data.None? {
          return Panic, dst;
        }
        ReadMore(sb, v, u, V(), i);
        SlotsNext(v.inodes[i].addrs, u.inodes[i].addrs, inodes[i].addrs, off, n, tot);
        var m := |data.value|;
        SliceMore(Contents(v, i), off, off + tot, off + tot + m);
        dst := dst + data.value;
        tot := tot + m;
      }
      SlotsSame(v.inodes[i].addrs, inodes[i].addrs, off, tot);
      r := Ret(n);
    }

    /**
     itrunc: each block of the file is freed exactly once, so that freeing never meets a free
     block; the inode becomes empty, here and on disk, and ownership is kept.
     */
    method Itrunc(i: nat) returns (ok: bool)
      requires Owned(sb, V()) && i in inodes
      modifies this`bits, this`inodes, this`dinodes, this`logged
      ensures ok && Truncated(sb, old(V()), V(), i) && (NoLeak(sb, old(V())) ==> NoLeak(sb, V()))
      ensures i in inodes && dinodes == old(dinodes)[i := inodes[i]]
      ensures old(logged) <= logged && Framed(sb, old(D()), D(), logged)
      ensures sb.size <= BPB ==> logged <= old(logged) + {sb.bmapstart, IBlock(sb, i)}
    {
      hide Owned, NamedOnce, NamesMarked, Name, FreedTo, BitsLogged, Framed, Truncated, NoLeak;
      ghost var v := V();
      FreedNone(v, i);
      NoBitsLogged(sb, bits, logged);
      assert Cleared(v.inodes[i].addrs, 0) == v.inodes[i].addrs;
      var k := 0;
      while k < NDIRECT
        invariant dinodes == old(dinodes)
        invariant 0 <= k <= NDIRECT && FreedTo(v, bits, i, k) && BitsLogged(sb, v.bits, bits, old(logged), logged)
        invariant inodes == v.inodes[i := v.inodes[i].(addrs := Cleared(v.inodes[i].addrs, k))]
      {
        FreeNext(sb, v, bits, i, k);
        if inodes[i].addrs[k] != 0 {
          BitLogged(sb, v.bits, bits, old(logged), logged, inodes[i].addrs[k]);
          ok := Bfree(inodes[i].addrs[k]);
          if !ok { return; }
          inodes := inodes[i := inodes[i].(addrs := inodes[i].addrs[k := 0])];
        }
        assert inodes[i].addrs == Cleared(v.inodes[i].addrs, k + 1);
        k := k + 1;
      }
      if inodes[i].addrs[NDIRECT] != 0 {
        ok := FreeIndirect(i, v, old(logged));
        if !ok { return; }
        inodes := inodes[i := inodes[i].(addrs := inodes[i].addrs[NDIRECT := 0])];
      } else {
        FreedRest(v, bits, i);
      }
      assert inodes[i].addrs == Cleared(v.inodes[i].addrs, NDIRECT + 1);
      inodes := inodes[i := inodes[i].(size := 0)];
      ghost var l := logged;
      Iupdate(i);
      TruncatedOwned(sb, v, V(), i);
      TruncatedNoLeak(sb, v, V(), i);
      FramedBits(sb, old(D()), D(), i, old(logged), l, logged);
      ok := true;
    }

    /** The second half of itrunc: the blocks the indirect block names, then the indirect block. */
    method FreeIndirect(i: nat, ghost v: Vol, ghost l0: set<nat>) returns (ok: bool)
      requires Owned(sb, v) && FreedTo(v, bits, i, NDIRECT) && blocks == v.blocks
      requires BitsLogged(sb, v.bits, bits, l0, logged)
      requires i in inodes && i in v.inodes && inodes[i].addrs[NDIRECT] == v.inodes[i].addrs[NDIRECT] != 0
      modifies this`bits, this`logged
      ensures ok && FreedTo(v, bits, i, NPOS) && BitsLogged(sb, v.bits, bits, l0, logged)
    {
      hide Owned, FreedTo, NamedOnce, NamesMarked, BitsLogged;
      var ind := inodes[i].addrs[NDIRECT];
      NameInRange(sb, v, i, NDIRECT);
      var a := blocks[ind];
      var j := 0;
      while j < NINDIRECT
        invariant 0 <= j <= NINDIRECT && FreedTo(v, bits, i, NDIRECT + j) && BitsLogged(sb, v.bits, bits, l0, logged)
      {
        FreeNext(sb, v, bits, i, NDIRECT + j);
        if Word(a, j) != 0 {
          BitLogged(sb, v.bits, bits, l0, logged, Word(a, j));
          ok := Bfree(Word(a, j));
          if !ok { return; }
        }
        j := j + 1;
      }
      FreeNext(sb, v, bits, i, MAXFILE);
      BitLogged(sb, v.bits, bits, l0, logged, ind);
      ok := Bfree(ind);
    }

    /** Start a transaction that has logged nothing. */
    method BeginOp()
      modifies this`logged
      ensures logged == {}
    {
      logged := {};
    }

    /** End a transaction. */
    method EndOp()
      modifies this`ops
      ensures ops == old(ops) + [logged]
    {
      ops := ops + [logged];
    }

    /** One transaction of filewrite, writing part of src; Ret(-1) if writei refuses. */
    method WriteOp(f: File, src: seq<byte>) returns (r: Outcome)
      requires Owned(sb, V()) && SizeOk(V(), f.ip) && f.off < UINT && 0 < |src| <= CHUNKMAX
      modifies this`bits, this`blocks, this`inodes, this`dinodes, this`logged, this`ops, f`off
      ensures r == Panic ==> Full(sb, V()) && ops == old(ops) && Missing(old(V()), f.ip, old(f.off), |src|)
      ensures r.Ret? ==>
        && |ops| == |old(ops)| + 1 && old(ops) == ops[..|old(ops)|]
        && |ops[|old(ops)|]| <= OpBound(sb, HoleFree(old(V()), f.ip))
      ensures r == Ret(-1) <==> old(f.off) > old(inodes)[f.ip].size || old(f.off) + |src| > MAXBYTES
      ensures r == Ret(-1) ==> V() == old(V()) && f.off == old(f.off) && dinodes == old(dinodes)
      ensures r.Ret? && r.n != -1 ==>
        && r.n == |src| && f.off == old(f.off) + |src|
        && WroteFile(sb, old(V()), V(), f.ip, src, old(f.off))
        && (HoleFree(old(V()), f.ip) ==> UpToDate(old(inodes), old(dinodes), inodes, dinodes, f.ip))
        && Framed(sb, old(D()), D(), ops[|old(ops)|]) && Grown(old(V()), V(), f.ip)
        && (HoleFree(old(V()), f.ip) && old(dinodes == inodes) ==> dinodes == inodes)
        && (NoLeak(sb, old(V())) ==> NoLeak(sb, V()))
    {
      hide Owned, HoleFree, WroteFile, LogBound, LogBoundOneMap, Full, UpToDate, Framed, Grown, Missing, NoLeak;
      ChunkFitsReservation(f.off, |src|);
      BeginOp();
      r := Writei(f.ip, src, f.off);
      if r.Ret? && r.n > 0 {
        f.off := f.off + r.n;
      }
      if r.Ret? {
        EndOp();
        if r.n != -1 && HoleFree(old(V()), f.ip) && old(dinodes == inodes) {
          AllUpToDate(sb, old(V()), V(), old(dinodes), dinodes, f.ip, src, old(f.off));
        }
      }
    }

    /**
     filewrite, one transaction for each chunk. Accepted bytes are written at the file's offset,
     which moves past them; every transaction keeps to its budget.
     */
    method Filewrite(f: File, src: seq<byte>) returns (r: Outcome)
      requires Owned(sb, V()) && SizeOk(V(), f.ip) && f.off < UINT && |src| < UINT / 2
      modifies this`bits, this`blocks, this`inodes, this`dinodes, this`logged, this`ops, f`off
      ensures r == Panic ==> Full(sb, V()) && Missing(old(V()), f.ip, old(f.off), |src|)
      ensures !f.writable ==> r == Ret(-1) && V() == old(V()) && f.off == old(f.off)
      ensures r.Ret? && f.writable ==>
        && old(f.off) <= f.off <= old(f.off) + |src|
        && (r.n == |src| <==> src == [] || (old(f.off) <= old(inodes)[f.ip].size && old(f.off) + |src| <= MAXBYTES))
        && (if r.n == |src| then f.off == old(f.off) + |src| else r.n == -1)
        && (r.n != |src| && old(f.off) > old(inodes)[f.ip].size ==> f.off == old(f.off))
        && (r.n != |src| && old(f.off) <= old(inodes)[f.ip].size ==>
              (f.off - old(f.off)) % 1536 == 0 && f.off <= MAXBYTES < f.off + 1536)
        && var w := f.off - old(f.off);
        && (if w == 0 then V() == old(V()) else WroteFile(sb, old(V()), V(), f.ip, src[..w], old(f.off)))
      ensures r.Ret? && HoleFree(old(V()), f.ip) ==> UpToDate(old(inodes), old(dinodes), inodes, dinodes, f.ip)
      ensures WithinBudget(old(ops), ops, OpBound(sb, HoleFree(old(V()), f.ip)))
      ensures r.Ret? ==> Grown(old(V()), V(), f.ip) && (NoLeak(sb, old(V())) ==> NoLeak(sb, V()))
    {
      hide Owned, HoleFree, WroteFile, Full, UpToDate, WroteSoFar, OpBound, Grown, Missing, NoLeak;
      UpToDateRefl(inodes, dinodes, f.ip);
      OwnedSized(sb, V());
      GrownNone(sb, V(), f.ip);
      if !f.writable {
        return Ret(-1);
      }
      ghost var v, off, ino, dino := V(), f.off, inodes, dinodes;
      WroteNone(sb, v, f.ip, src, off);
      BoundLess(sb);
      var n := |src|;
      var k := 0;
      ghost var refused := false;
      while k < n
        invariant 0 <= k <= n && f.off == off + k
        invariant WroteSoFar(sb, v, V(), f.ip, src, off, k)
        invariant k == n || k % CHUNKMAX == 0
        invariant HoleFree(v, f.ip) ==> UpToDate(ino, dino, inodes, dinodes, f.ip)
        invariant WithinBudget(old(ops), ops, OpBound(sb, HoleFree(v, f.ip))) && Grown(v, V(), f.ip)
        invariant NoLeak(sb, v) ==> NoLeak(sb, V())
      {
        var n1 := n - k;
        if n1 > CHUNKMAX {
          n1 := CHUNKMAX;
        }
        ghost var u, ino1, dino1 := V(), inodes, dinodes;
        WroteReady(sb, v, u, f.ip, src, off, k);
        r := WriteOp(f, src[k..k + n1]);
        if r == Panic {
          MissingPart(v, u, f.ip, off, n, k, n1);
          return;
        }
        if r.n < 0 {
          refused := true;
          break;
        }
        WroteMore(sb, v, u, V(), f.ip, src, off, k, n1);
        GrownTrans(v, u, V(), f.ip);
        if HoleFree(v, f.ip) {
          UpToDateTrans(ino, dino, ino1, dino1, inodes, dinodes, f.ip);
        }
        k := k + n1;
      }
      WroteReady(sb, v, V(), f.ip, src, off, k);
      WroteEnd(v.inodes[f.ip].size, off, n, k, refused);
      WroteAt(sb, v, V(), f.ip, src, off, k);
      r := Ret(if k == n then n else -1);
    }

    /**
     fileread: read at the file's offset and move past what was read. It opens no transaction, so
     that a missing block is a panic unless another process happens to have one open.
     */
    method Fileread(f: File, n: nat, open: bool) returns (r: Outcome, dst: seq<byte>)
      requires Owned(sb, V()) && SizeOk(V(), f.ip) && f.off < UINT && n < UINT / 2
      modifies this`bits, this`blocks, this`inodes, this`logged, f`off
      ensures r == Ret(-1) <==> !f.readable || old(f.off) > old(inodes)[f.ip].size || old(f.off) + n >= UINT
      ensures r == Ret(-1) ==> f.off == old(f.off) && V() == old(V())
      ensures !open ==> (r == Panic <==>
        && f.readable && old(f.off) <= old(inodes)[f.ip].size && old(f.off) + n < UINT
        && Missing(old(V()), f.ip, old(f.off),
                   if old(f.off) + n > old(inodes)[f.ip].size then old(inodes)[f.ip].size - old(f.off) else n))
      ensures r == Panic ==> !HoleFree(old(V()), f.ip)
      ensures r.Ret? ==> ReadFile(sb, old(V()), V(), f.ip) && (!open ==> V() == old(V()))
      ensures r.Ret? && r != Ret(-1) ==>
        && r == Ret(|dst|) && f.off == old(f.off) + |dst| && old(f.off) <= old(inodes)[f.ip].size
        && (old(f.off) + n <= old(inodes)[f.ip].size ==> |dst| == n)
        && (old(f.off) + n > old(inodes)[f.ip].size ==> f.off == old(inodes)[f.ip].size)
        && dst == Contents(old(V()), f.ip)[old(f.off)..old(f.off) + |dst|]
    {
      hide Owned, HoleFree, Contents, Missing, ReadFile, Full, SlotsThere;
      ReadNone(sb, V(), f.ip);
      if !f.readable {
        return Ret(-1), [];
      }
      ghost var v := V();
      r, dst := Readi(f.ip, f.off, n, open);
      if r == Panic {
        var size := v.inodes[f.ip].size;
        MissingIsHole(v, f.ip, f.off, if f.off + n > size then size - f.off else n);
        return;
      }
      if r.n > 0 {
        f.off := f.off + r.n;
      }
    }
  }

  /** Any part of what writei has just written is read back whole, with or without an open transaction. */
  method WriteThenRead(fs: FileSystem, i: nat, src: seq<byte>, off: nat, o: nat, n: nat, open: bool)
    returns (w: Outcome, r: Outcome, dst: seq<byte>)
    requires Owned(fs.sb, fs.V()) && SizeOk(fs.V(), i) && off < UINT && |src| < UINT
    requires off <= o && o + n <= off + |src|
    modifies fs
    ensures w.Ret? && w.n != -1 ==> r == Ret(n) && dst == src[o - off..o - off + n]
  {
    hide Owned, HoleFree, Contents, Missing, ReadFile, Full, SlotsThere, Splice, OthersSame, UpToDate, Framed, Grown;
    ghost var v := fs.V();
    r, dst := Panic, [];
    w := fs.Writei(i, src, off);
    if w.Ret? && w.n != -1 {
      ghost var u := fs.V();
      SpliceIs(Contents(v, i), off, src);
      r, dst := fs.Readi(i, o, n, open);
      MissingWithin(u, i, off, |src|, o, n);
      ReadBack(fs.sb, v, u, i, src, off, o, n);
    }
  }

  /** An open file of inode ip. */
  class File {
    const ip: nat
    const readable: bool
    const writable: bool
    var off: nat
  }

  // ---------------------------------------------------------------- writing in chunks

  /**
   The most blocks a transaction of filewrite logs: what begin_op reserves, one more if a file
   with holes is written, and three fewer whatever the file if the bitmap is one block.
   */
  function OpBound(sb: Super, whole: bool): (k: nat) {
    if sb.size <= BPB then MAXOPBLOCKS - 3 else if whole then MAXOPBLOCKS else MAXOPBLOCKS + 1
  }

  lemma BoundLess(sb: Super)
    ensures OpBound(sb, true) <= OpBound(sb, false)
  {
  }

  /** No transaction since the earlier point logged more blocks than most. */
  ghost predicate WithinBudget(before: seq<set<nat>>, now: seq<set<nat>>, most: nat) {
    && |before| <= |now| && before == now[..|before|]
    && forall t :: |before| <= t < |now| ==> |now[t]| <= most
  }

  /** The first k bytes of src have been written. */
  ghost predicate WroteSoFar(sb: Super, v: Vol, w: Vol, i: nat, src: seq<byte>, off: nat, k: nat) {
    && k <= |src|
    && if k == 0 then w == v && Owned(sb, v) && SizeOk(v, i) else WroteFile(sb, v, w, i, src[..k], off)
  }

  lemma WroteReady(sb: Super, v: Vol, u: Vol, i: nat, src: seq<byte>, off: nat, k: nat)
    requires WroteSoFar(sb, v, u, i, src, off, k)
    ensures Owned(sb, u) && SizeOk(u, i) && i in v.inodes && (HoleFree(v, i) ==> HoleFree(u, i))
    ensures if k == 0 then u == v else off <= v.inodes[i].size && off + k <= u.inodes[i].size
  {
    if k > 0 {
      assert |Contents(u, i)| == u.inodes[i].size;
    }
  }

  lemma WroteNone(sb: Super, v: Vol, i: nat, src: seq<byte>, off: nat)
    requires Owned(sb, v) && SizeOk(v, i)
    ensures WroteSoFar(sb, v, v, i, src, off, 0)
  {
  }

  lemma WroteAt(sb: Super, v: Vol, w: Vol, i: nat, src: seq<byte>, off: nat, k: nat)
    requires WroteSoFar(sb, v, w, i, src, off, k)
    ensures k <= |src| && if k == 0 then w == v else WroteFile(sb, v, w, i, src[..k], off)
  {
  }

  lemma SpliceSplice(s: seq<byte>, off: nat, a: seq<byte>, b: seq<byte>)
    requires off <= |s|
    ensures Splice(Splice(s, off, a), off + |a|, b) == Splice(s, off, a + b)
  {
    var x, y := Splice(Splice(s, off, a), off + |a|, b), Splice(s, off, a + b);
    assert |x| == |y|;
    forall o | 0 <= o < |x| ensures x[o] == y[o] {
    }
  }

  lemma WroteMore(sb: Super, v: Vol, u: Vol, w: Vol, i: nat, src: seq<byte>, off: nat, k: nat, n1: nat)
    requires WroteSoFar(sb, v, u, i, src, off, k) && 0 < n1 && k + n1 <= |src|
    requires WroteFile(sb, u, w, i, src[k..k + n1], off + k)
    ensures WroteSoFar(sb, v, w, i, src, off, k + n1)
  {
    hide Owned, HoleFree, OthersSame, Splice, Contents;
    if k > 0 {
      SpliceSplice(Contents(v, i), off, src[..k], src[k..k + n1]);
      OthersSameTrans(v, u, w, i);
    }
    assert src[..k] + src[k..k + n1] == src[..k + n1];
  }

  /** The loop stopped after k bytes: at the end, or because writei refused the next chunk. */
  ghost predicate Stopped(size: nat, off: nat, n: nat, k: nat, refused: bool) {
    if !refused then k == n && (k > 0 ==> off <= size && off + k <= MAXBYTES)
    else
      && k < n && k % CHUNKMAX == 0
      && var n1 := Least(n - k, CHUNKMAX);
         if k == 0 then off > size || off + n1 > MAXBYTES
         else off <= size && off + k <= MAXBYTES < off + k + n1
  }

  /** Where the loop stops: at the end, or at the last whole chunk that fits, or at once. */
  lemma WroteEnd(size: nat, off: nat, n: nat, k: nat, refused: bool)
    requires Stopped(size, off, n, k, refused) && size <= MAXBYTES
    ensures (k == n <==> !refused) && (k == n <==> n == 0 || (off <= size && off + n <= MAXBYTES))
    ensures refused && off > size ==> k == 0
    ensures refused && off <= size ==> k % CHUNKMAX == 0 && off + k <= MAXBYTES < off + k + CHUNKMAX
  {
  }

  lemma UpToDateRefl(ino: map<nat, Inode>, dino: map<nat, Inode>, i: nat)
    ensures UpToDate(ino, dino, ino, dino, i)
  {
  }

  lemma UpToDateTrans(ino: map<nat, Inode>, dino: map<nat, Inode>, ino1: map<nat, Inode>, dino1: map<nat, Inode>,
                      ino2: map<nat, Inode>, dino2: map<nat, Inode>, i: nat)
    requires UpToDate(ino, dino, ino1, dino1, i) && UpToDate(ino1, dino1, ino2, dino2, i)
    ensures UpToDate(ino, dino, ino2, dino2, i)
  {
  }

  function Least(a: nat, b: nat): (m: nat) {
    if a < b then a else b
  }

  // ---------------------------------------------------------------- reading

  /** One of the blocks that hold the n bytes at off is missing. */
  ghost predicate Missing(v: Vol, i: nat, off: nat, n: nat) {
    exists bn: nat :: Touches(bn, off, n) && bn < MAXFILE && Name(v, i, PosOf(bn)) == 0
  }

  lemma NoneMissing(v: Vol, i: nat, off: nat)
    ensures !Missing(v, i, off, 0)
  {
  }

  /** File i has kept the block at place p. */
  lemma GrownNamed(v: Vol, w: Vol, i: nat, p: nat)
    requires Grown(v, w, i) && p < NPOS && Name(v, i, p) != 0
    ensures Name(w, i, p) != 0
  {
  }

  /** A block that is missing when t bytes are written was missing before. */
  lemma MissingBefore(v: Vol, u: Vol, i: nat, off: nat, n: nat, t: nat)
    requires Grown(v, u, i) && t < n && (off + t) / BSIZE < MAXFILE && Name(u, i, PosOf((off + t) / BSIZE)) == 0
    ensures Missing(v, i, off, n)
  {
    hide Name;
    assert Touches((off + t) / BSIZE, off, n);
  }

  /** With the next block mapped, nothing is missing up to its end. */
  lemma MissingAfter(u: Vol, w: Vol, i: nat, off: nat, n: nat, t: nat)
    requires Grown(u, w, i) && t < n && (off + t) / BSIZE < MAXFILE && Name(w, i, PosOf((off + t) / BSIZE)) != 0
    requires !Missing(u, i, off, t)
    ensures !Missing(w, i, off, t + Chunk(n, t, off + t))
  {
    hide Name;
    var at, m := (off + t) / BSIZE, t + Chunk(n, t, off + t);
    assert (off + m - 1) / BSIZE == at;
    forall bn: nat | Touches(bn, off, m) && bn < MAXFILE ensures Name(w, i, PosOf(bn)) != 0 {
      TouchesNext(bn, off, t, m);
    }
  }

  lemma MissingSized(v: Vol, i: nat, size: nat, off: nat, n: nat)
    requires i in v.inodes
    ensures Missing(PutSize(v, i, size), i, off, n) <==> Missing(v, i, off, n)
  {
    forall p | 0 <= p < NPOS ensures Name(PutSize(v, i, size), i, p) == Name(v, i, p) {
    }
  }

  lemma MissingWithin(v: Vol, i: nat, off: nat, n: nat, o: nat, m: nat)
    requires off <= o && o + m <= off + n
    ensures Missing(v, i, o, m) ==> Missing(v, i, off, n)
  {
    if Missing(v, i, o, m) {
      var bn: nat :| Touches(bn, o, m) && bn < MAXFILE && Name(v, i, PosOf(bn)) == 0;
      assert Touches(bn, off, n);
    }
  }

  /** What part of a write misses, the whole of it missed before. */
  lemma MissingPart(v: Vol, u: Vol, i: nat, off: nat, n: nat, k: nat, m: nat)
    requires Grown(v, u, i) && k + m <= n && Missing(u, i, off + k, m)
    ensures Missing(v, i, off, n)
  {
    hide Name;
    var bn: nat :| Touches(bn, off + k, m) && bn < MAXFILE && Name(u, i, PosOf(bn)) == 0;
    assert Touches(bn, off, n);
  }

  lemma MissingIsHole(v: Vol, i: nat, off: nat, n: nat)
    requires SizeOk(v, i) && off + n <= v.inodes[i].size && Missing(v, i, off, n)
    ensures !HoleFree(v, i)
  {
    var bn: nat :| Touches(bn, off, n) && bn < MAXFILE && Name(v, i, PosOf(bn)) == 0;
    assert bn < BlocksFor(v.inodes[i].size);
  }

  /** The next chunk misses a block exactly if more of the file is missing. */
  lemma MissingNext(sb: Super, v: Vol, u: Vol, i: nat, off: nat, n: nat, t: nat)
    requires ReadFile(sb, v, u, i) && t < n && (off + t) / BSIZE < MAXFILE
    ensures Name(u, i, PosOf((off + t) / BSIZE)) == 0 ==> Missing(v, i, off, n)
    ensures u == v && Name(u, i, PosOf((off + t) / BSIZE)) != 0 && !Missing(v, i, off, t) ==>
      !Missing(v, i, off, t + Chunk(n, t, off + t))
  {
    hide Owned, Contents, Name, HoleFree;
    var at, w := (off + t) / BSIZE, t + Chunk(n, t, off + t);
    assert Touches(at, off, n);
    assert (off + w - 1) / BSIZE == at;
    forall bn: nat ensures Touches(bn, off, w) <==> Touches(bn, off, t) || bn == at {
      TouchesNext(bn, off, t, w);
    }
  }

  /** Reading has kept file i, filling holes at most. */
  ghost predicate ReadFile(sb: Super, v: Vol, w: Vol, i: nat) {
    && Owned(sb, w) && Kept(v, w, i) && SizeOk(v, i) && SizeOk(w, i)
    && Contents(w, i) == Contents(v, i) && (HoleFree(v, i) ==> w == v)
    && Grown(v, w, i) && (NoLeak(sb, v) ==> NoLeak(sb, w))
  }

  lemma ReadNone(sb: Super, v: Vol, i: nat)
    requires Owned(sb, v) && SizeOk(v, i)
    ensures ReadFile(sb, v, v, i)
  {
    KeptRefl(v, i);
    OwnedSized(sb, v);
    GrownNone(sb, v, i);
    hide Owned, Grown, NoLeak, Kept;
  }

  lemma ReadOn(sb: Super, v: Vol, w: Vol, i: nat)
    requires ReadFile(sb, v, w, i)
    ensures Owned(sb, w) && SizeOk(w, i) && SizeOk(v, i) && w.inodes[i].size == v.inodes[i].size
    ensures HoleFree(v, i) ==> HoleFree(w, i)
  {
  }

  lemma ReadMore(sb: Super, u: Vol, v: Vol, w: Vol, i: nat)
    requires ReadFile(sb, u, v, i) && ReadFile(sb, v, w, i)
    ensures ReadFile(sb, u, w, i) && SizeOk(u, i) && SizeOk(w, i) && Contents(w, i) == Contents(u, i)
  {
    hide Owned, Grown, NoLeak, Kept, Contents, Mapped;
    KeptTrans(u, v, w, i);
    GrownTrans(u, v, w, i);
  }

  lemma BlockThere(sb: Super, v: Vol, i: nat, o: nat)
    requires Owned(sb, v) && SizeOk(v, i) && o < v.inodes[i].size
    ensures o / BSIZE < MAXFILE && (HoleFree(v, i) ==> Name(v, i, PosOf(o / BSIZE)) != 0)
  {
    assert o / BSIZE < BlocksFor(v.inodes[i].size);
  }

  lemma BmapRead(sb: Super, v: Vol, w: Vol, i: nat, bn: nat, addr: nat)
    requires Owned(sb, v) && SizeOk(v, i) && bn < MAXFILE && BmapDone(sb, v, w, i, bn, addr)
    requires (HoleFree(v, i) ==> Name(v, i, PosOf(bn)) != 0) && Grown(v, w, i)
    ensures Name(v, i, PosOf(bn)) != 0 ==> w == v
    ensures ReadFile(sb, v, w, i) && 0 < addr == Name(w, i, PosOf(bn)) < |w.blocks|
  {
    BmapBytes(sb, v, w, i, bn, addr);
    NameInRange(sb, w, i, PosOf(bn));
    GrownNoLeak(sb, v, w, i);
    hide ByteAt, Grown, NoLeak;
    assert Contents(w, i) == Contents(v, i);
  }

  lemma ChunkRead(sb: Super, v: Vol, i: nat, a: nat, m: nat, data: seq<byte>)
    requires Owned(sb, v) && SizeOk(v, i) && a + m <= v.inodes[i].size && a % BSIZE + m <= BSIZE && 1 <= m
    requires 0 < Name(v, i, PosOf(a / BSIZE)) < |v.blocks|
    requires data == v.blocks[Name(v, i, PosOf(a / BSIZE))][a % BSIZE..a % BSIZE + m]
    ensures i in v.inodes && v.inodes[i].size <= MAXBYTES && data == Contents(v, i)[a..a + m]
  {
    var c := Contents(v, i);
    forall k | 0 <= k < m ensures data[k] == c[a + k] {
      SameBlock(a + k, a, m);
    }
  }

  lemma SliceMore(c: seq<byte>, a: nat, b: nat, d: nat)
    requires a <= b <= d <= |c|
    ensures c[a..b] + c[b..d] == c[a..d]
  {
  }

  lemma SpliceSlice(s: seq<byte>, off: nat, src: seq<byte>, o: nat, n: nat)
    requires off <= |s| && o + n <= |Splice(s, off, src)|
    ensures off <= o && o + n <= off + |src| ==> Splice(s, off, src)[o..o + n] == src[o - off..o - off + n]
    ensures o + n <= off || off + |src| <= o ==> (n > 0 ==> o + n <= |s|)
    ensures (o + n <= off || off + |src| <= o) && o + n <= |s| ==> Splice(s, off, src)[o..o + n] == s[o..o + n]
  {
    var t := Splice(s, off, src);
    forall k | o <= k < o + n ensures t[k] == if off <= k < off + |src| then src[k - off] else s[k] {
    }
  }

  /** A spliced file byte by byte: as long as the longer of the two, and new exactly where it was written. */
  lemma SpliceIs(s: seq<byte>, off: nat, src: seq<byte>)
    requires off <= |s|
    ensures |Splice(s, off, src)| == if off + |src| > |s| then off + |src| else |s|
    ensures forall o :: 0 <= o < |Splice(s, off, src)| ==>
      Splice(s, off, src)[o] == if off <= o < off + |src| then src[o - off] else s[o]
  {
  }

  /** Inside the written range a read gives what was written, outside it what was there before. */
  lemma ReadBack(sb: Super, v: Vol, w: Vol, i: nat, src: seq<byte>, off: nat, o: nat, n: nat)
    requires WroteFile(sb, v, w, i, src, off) && o + n <= |Contents(w, i)|
    ensures off <= o && o + n <= off + |src| ==> Contents(w, i)[o..o + n] == src[o - off..o - off + n]
    ensures (o + n <= off || off + |src| <= o) && o + n <= |Contents(v, i)| ==>
      Contents(w, i)[o..o + n] == Contents(v, i)[o..o + n]
  {
    hide Owned, HoleFree, OthersSame, Contents, Splice;
    SpliceSlice(Contents(v, i), off, src, o, n);
  }

  // ---------------------------------------------------------------- truncation

  /** The places of an inode in the order itrunc frees them: the file's blocks, then the indirect block. */
  function FreePos(q: nat): (p: nat)
    requires q < NPOS
    ensures p < NPOS
  {
    if q < MAXFILE then PosOf(q) else NDIRECT
  }

  /** Block b is among the first k blocks freed. */
  ghost predicate NamedBefore(v: Vol, i: nat, b: nat, k: nat)
    requires k <= NPOS
  {
    exists q :: 0 <= q < k && Name(v, i, FreePos(q)) == b
  }

  /** bits is the bitmap of v with the first k blocks of file i freed. */
  ghost predicate FreedTo(v: Vol, bits: seq<bool>, i: nat, k: nat)
    requires k <= NPOS
  {
    && |bits| == |v.bits|
    && forall b :: 0 <= b < |bits| ==> bits[b] == (v.bits[b] && (b == 0 || !NamedBefore(v, i, b, k)))
  }

  lemma FreedNone(v: Vol, i: nat)
    ensures FreedTo(v, v.bits, i, 0)
  {
  }

  /** The next block to free is still marked; freeing it is the next step. */
  lemma FreeNext(sb: Super, v: Vol, bits: seq<bool>, i: nat, k: nat)
    requires Owned(sb, v) && k < NPOS && FreedTo(v, bits, i, k)
    ensures WellSized(sb, v) && |bits| == sb.size
            && (k < NDIRECT && i in v.inodes ==> Name(v, i, FreePos(k)) == v.inodes[i].addrs[k])
    ensures var b := Name(v, i, FreePos(k));
            if b == 0 then FreedTo(v, bits, i, k + 1)
            else b < sb.size && bits[b] && FreedTo(v, bits[b := false], i, k + 1)
  {
    var b := Name(v, i, FreePos(k));
    if b == 0 {
      forall c | 0 < c < |bits| ensures NamedBefore(v, i, c, k) <==> NamedBefore(v, i, c, k + 1) {
      }
    } else {
      NameInRange(sb, v, i, FreePos(k));
      forall q | 0 <= q < k ensures Name(v, i, FreePos(q)) != b {
        assert FreePos(q) != FreePos(k);
      }
      forall c | 0 < c < |bits| ensures NamedBefore(v, i, c, k + 1) <==> NamedBefore(v, i, c, k) || c == b {
        assert Name(v, i, FreePos(k)) == b;
      }
    }
  }

  /** Without an indirect block there is nothing more to free. */
  lemma FreedRest(v: Vol, bits: seq<bool>, i: nat)
    requires FreedTo(v, bits, i, NDIRECT) && i in v.inodes && v.inodes[i].addrs[NDIRECT] == 0
    ensures FreedTo(v, bits, i, NPOS)
  {
    forall b | 0 < b < |bits| ensures NamedBefore(v, i, b, NPOS) <==> NamedBefore(v, i, b, NDIRECT) {
      forall q | NDIRECT <= q < NPOS ensures Name(v, i, FreePos(q)) == 0 {
      }
    }
  }

  /** The slots with the first k set to zero. */
  function Cleared(a: Addrs, k: nat): (r: Addrs) {
    seq(NDIRECT + 1, p requires 0 <= p < NDIRECT + 1 => if p < k then 0 else a[p])
  }

  /**
   File i of v has become empty in w: exactly the blocks it named are free again, ownership
   holds, and no other file is touched.
   */
  ghost predicate Truncated(sb: Super, v: Vol, w: Vol, i: nat) {
    && Owned(sb, w) && OthersSame(v, w, i) && w.blocks == v.blocks && |w.bits| == |v.bits|
    && i in w.inodes && w.inodes[i] == Inode(0, seq(NDIRECT + 1, _ => 0))
    && (forall b :: 0 < b < |v.bits| ==> (w.bits[b] <==> v.bits[b] && forall p :: 0 <= p < NPOS ==> Name(v, i, p) != b))
  }

  lemma FreedNames(v: Vol, i: nat, b: nat)
    ensures NamedBefore(v, i, b, NPOS) <==> exists p :: 0 <= p < NPOS && Name(v, i, p) == b
  {
    forall p | 0 <= p < NPOS && Name(v, i, p) == b ensures NamedBefore(v, i, b, NPOS) {
      var q := if p < NDIRECT then p else if p == NDIRECT then MAXFILE else p - 1;
      assert FreePos(q) == p;
    }
  }

  lemma TruncatedOwned(sb: Super, v: Vol, w: Vol, i: nat)
    requires Owned(sb, v) && i in v.inodes && FreedTo(v, w.bits, i, NPOS) && w.blocks == v.blocks
    requires w.inodes == v.inodes[i := Inode(0, Cleared(v.inodes[i].addrs, NDIRECT + 1))]
    ensures Truncated(sb, v, w, i)
  {
    forall b | 0 < b < |v.bits| ensures w.bits[b] <==> v.bits[b] && forall p :: 0 <= p < NPOS ==> Name(v, i, p) != b {
      FreedNames(v, i, b);
    }
    forall j, p | 0 <= p < NPOS ensures Name(w, j, p) == if j == i then 0 else Name(v, j, p) {
    }
    assert w.inodes[i].addrs == seq(NDIRECT + 1, _ => 0);
    TruncatedMarked(sb, v, w, i);
    forall j, p, k, q | 0 <= p < NPOS && 0 <= q < NPOS && Name(w, j, p) == Name(w, k, q) != 0 ensures j == k && p == q {
      assert Name(v, j, p) == Name(v, k, q);
    }
  }

  lemma TruncatedMarked(sb: Super, v: Vol, w: Vol, i: nat)
    requires Owned(sb, v) && WellSized(sb, w)
    requires forall b :: 0 <= b < |v.bits| ==>
               (w.bits[b] <==> v.bits[b] && (b == 0 || forall p :: 0 <= p < NPOS ==> Name(v, i, p) != b))
    requires forall j, p :: 0 <= p < NPOS ==> Name(w, j, p) == if j == i then 0 else Name(v, j, p)
    ensures NamesMarked(sb, w)
  {
    forall b | 0 <= b < sb.datastart ensures w.bits[b] {
      assert b != 0 ==> forall p :: 0 <= p < NPOS ==> Name(v, i, p) != b;
    }
    forall j, p | 0 <= p < NPOS && Name(w, j, p) != 0 ensures sb.IsData(Name(w, j, p)) && w.bits[Name(w, j, p)] {
      assert Name(w, j, p) == Name(v, j, p);
      NameInRange(sb, v, j, p);
    }
  }

  /** No free block is left. */
  ghost predicate Full(sb: Super, v: Vol) {
    forall b :: 0 <= b < sb.size ==> b < |v.bits| && v.bits[b]
  }

  /** writei refuses the request. */
  predicate BadWrite(size: nat, off: nat, n: nat) {
    off > size || (off + n) % UINT < off || (off + n) % UINT > MAXBYTES
  }

  /** The request is refused exactly when it starts past the end or ends past the largest file. */
  lemma RangeOk(size: nat, off: nat, n: nat)
    requires size <= MAXBYTES && off < UINT && n < UINT
    ensures BadWrite(size, off, n) <==> off > size || off + n > MAXBYTES
  {
  }

  lemma FileSize(v: Vol, i: nat)
    requires HoleFree(v, i)
    ensures SizeOk(v, i) && i in v.inodes && v.inodes[i].size <= MAXBYTES
  {
  }

  /** File i of w is file i of v with src written at off, no hole is new, and nothing else changed. */
  ghost predicate WroteFile(sb: Super, v: Vol, w: Vol, i: nat, src: seq<byte>, off: nat) {
    && Owned(sb, w) && (HoleFree(v, i) ==> HoleFree(w, i)) && OthersSame(v, w, i)
    && SizeOk(w, i) && i in v.inodes && off <= v.inodes[i].size <= MAXBYTES
    && Contents(w, i) == Splice(Contents(v, i), off, src)
  }

  lemma WroteOthers(sb: Super, v: Vol, w: Vol, i: nat, src: seq<byte>, off: nat)
    requires WroteFile(sb, v, w, i, src, off)
    ensures OthersSame(v, w, i)
  {
  }

  /** If the inode on disk was a true copy it still is, and the copies of other inodes are untouched. */
  ghost predicate UpToDate(ino: map<nat, Inode>, dino: map<nat, Inode>,
                           ino': map<nat, Inode>, dino': map<nat, Inode>, i: nat)
  {
    && (i in ino && i in dino && dino[i] == ino[i] ==> i in ino' && i in dino' && dino'[i] == ino'[i])
    && (forall j :: j != i && j in dino ==> j in dino' && dino'[j] == dino[j])
  }

  /** If the inodes on disk were all true copies, they still are. */
  lemma AllUpToDate(sb: Super, v: Vol, w: Vol, dino: map<nat, Inode>, dino': map<nat, Inode>, i: nat,
                    src: seq<byte>, off: nat)
    requires WroteFile(sb, v, w, i, src, off) && dino == v.inodes && UpToDate(v.inodes, dino, w.inodes, dino', i)
    requires dino' == dino || (i in w.inodes && dino' == dino[i := w.inodes[i]])
    ensures dino' == w.inodes
  {
    assert dino'.Keys == w.inodes.Keys;
  }

  lemma WroteWhole(sb: Super, v0: Vol, v: Vol, i: nat, off: nat, src: seq<byte>)
    requires Written(sb, v0, v, i, off, src, |src|)
    ensures var size := if |src| > 0 && off + |src| > v0.inodes[i].size then off + |src| else v0.inodes[i].size;
            WroteFile(sb, v0, PutSize(v, i, size), i, src, off)
  {
    WrittenContents(sb, v0, v, i, off, src);
  }

  lemma CountedStart(whole: bool, off: nat, n: nat)
    ensures Counted(Tally(0, 0, false, false), whole, off, n, 0)
  {
  }

  lemma OwnedSized(sb: Super, v: Vol)
    requires Owned(sb, v)
    ensures WellSized(sb, v)
  {
  }

  lemma SameSize(v: Vol, i: nat)
    requires i in v.inodes
    ensures PutSize(v, i, v.inodes[i].size) == v
  {
  }

  lemma WrittenGrown(sb: Super, v0: Vol, v: Vol, i: nat, off: nat, src: seq<byte>, t: nat)
    requires Written(sb, v0, v, i, off, src, t)
    ensures WellSized(sb, v) && Grown(v, v, i)
  {
  }

  lemma WrittenInode(sb: Super, v0: Vol, v: Vol, i: nat, off: nat, src: seq<byte>, t: nat)
    requires Written(sb, v0, v, i, off, src, t)
    ensures i in v.inodes && i in v0.inodes && v.inodes[i].size == v0.inodes[i].size
    ensures off <= v0.inodes[i].size && off + |src| <= MAXBYTES
  {
  }

  lemma WrittenStart(sb: Super, v: Vol, i: nat, off: nat, src: seq<byte>)
    requires Owned(sb, v) && SizeOk(v, i) && off <= v.inodes[i].size && off + |src| <= MAXBYTES
    ensures Written(sb, v, v, i, off, src, 0)
  {
    var k := BlocksFor(v.inodes[i].size);
    assert BlocksFor(off + 0) <= k;
  }

  lemma SameInd(v: Vol, w: Vol, i: nat)
    requires v.inodes == w.inodes
    ensures Name(w, i, NDIRECT) == Name(v, i, NDIRECT)
  {
  }

  lemma WrittenRange(sb: Super, v0: Vol, v: Vol, i: nat, off: nat, src: seq<byte>, t: nat)
    requires Written(sb, v0, v, i, off, src, t) && t < |src|
    ensures Owned(sb, v) && i in v.inodes && (off + t) / BSIZE < MAXFILE
    ensures HoleFree(v0, i) && (off + t < v0.inodes[i].size || (t == 0 && off % BSIZE != 0)) ==>
      Name(v, i, PosOf((off + t) / BSIZE)) != 0
  {
    assert off + t < MAXBYTES;
    var bn := (off + t) / BSIZE;
    if HoleFree(v0, i) && (off + t < v0.inodes[i].size || (t == 0 && off % BSIZE != 0)) {
      assert bn < BlocksFor(v0.inodes[i].size);
    }
  }

  /** How one mapped and written block enlarges the log. */
  lemma OneBlockLogged(sb: Super, l: set<nat>, bn: nat, addr: nat, ind: nat, hadAddr: bool, hadInd: bool)
    ensures |l + BmapLog(sb, bn, addr, ind, hadAddr, hadInd) + {addr}| <= |l| + 1
      + (if hadAddr then 0 else 1)
      + (if hadAddr || bn < NDIRECT || ind in l then 0 else 1)
      + (if hadAddr || bn < NDIRECT || hadInd then 0 else 1)
  {
    if hadAddr {
      assert l + BmapLog(sb, bn, addr, ind, hadAddr, hadInd) + {addr} == l + {addr};
      AddOne(l, addr);
    } else if bn < NDIRECT {
      assert l + BmapLog(sb, bn, addr, ind, hadAddr, hadInd) + {addr} == l + {addr} + {BBlock(sb, addr)};
      AddTwo(l, addr, BBlock(sb, addr));
    } else if hadInd {
      assert l + BmapLog(sb, bn, addr, ind, hadAddr, hadInd) + {addr} == l + {ind} + {addr} + {BBlock(sb, addr)};
      AddOne(l, ind);
      AddTwo(l + {ind}, addr, BBlock(sb, addr));
    } else {
      assert l + BmapLog(sb, bn, addr, ind, hadAddr, hadInd) + {addr}
          == l + {ind} + {BBlock(sb, ind)} + {addr} + {BBlock(sb, addr)};
      AddOne(l, ind);
      AddOne(l + {ind}, BBlock(sb, ind));
      AddTwo(l + {ind} + {BBlock(sb, ind)}, addr, BBlock(sb, addr));
    }
  }

  lemma AddTwo(s: set<nat>, x: nat, y: nat)
    ensures |s + {x} + {y}| <= |s| + 2
  {
    AddOne(s, x);
    AddOne(s + {x}, y);
  }

  /**
   The log while a write is under way: k blocks written, of which a were new, and whether the
   indirect block was logged, and allocated, in this write.
   */
  datatype Tally = Tally(k: nat, a: nat, touched: bool, made: bool) {
    function Sum(): (n: nat) {
      k + a + (if touched then 1 else 0) + (if made then 1 else 0)
    }

    function SumOneMap(): (n: nat) {
      k + (if a > 0 then 1 else 0) + (if touched then 1 else 0)
    }
  }

  /** whole says that the file has no holes, so that a partly filled first block is not new. */
  ghost predicate Counted(c: Tally, whole: bool, off: nat, n: nat, t: nat) {
    && t <= n && (c.made ==> c.touched)
    && (if t == 0 then c == Tally(0, 0, false, false)
        else BSIZE * (c.k - 1) < off % BSIZE + t <= BSIZE * c.k && c.k >= 1
             && c.a <= c.k - (if whole && off % BSIZE != 0 then 1 else 0))
    && (0 < t < n ==> off % BSIZE + t == BSIZE * c.k)
  }

  /** The tally after one more block. */
  function Next(c: Tally, bn: nat, hadAddr: bool, hadInd: bool): (d: Tally) {
    Tally(c.k + 1, if hadAddr then c.a else c.a + 1,
          c.touched || (!hadAddr && bn >= NDIRECT),
          c.made || (!hadAddr && bn >= NDIRECT && !hadInd))
  }

  lemma CountedNext(c: Tally, whole: bool, off: nat, n: nat, t: nat, bn: nat, hadAddr: bool, hadInd: bool)
    requires Counted(c, whole, off, n, t) && t < n
    requires whole && t == 0 && off % BSIZE != 0 ==> hadAddr
    ensures Counted(Next(c, bn, hadAddr, hadInd), whole, off, n, t + Chunk(n, t, off + t))
  {
    if t > 0 {
      assert (off + t) % BSIZE == 0;
    }
  }

  /** The log l, of l0 blocks before the write, is within the tally; ind is the indirect block. */
  ghost predicate Tallied(sb: Super, l: set<nat>, l0: nat, c: Tally, ind: nat) {
    && |l| <= l0 + c.Sum() && (c.made ==> c.touched) && (c.touched ==> ind in l && ind != 0)
    && (sb.size <= BPB ==> |l| <= l0 + c.SumOneMap() && (c.a > 0 ==> sb.bmapstart in l))
  }

  lemma TalliedStart(sb: Super, l: set<nat>, ind: nat)
    ensures Tallied(sb, l, |l|, Tally(0, 0, false, false), ind)
  {
  }

  /** The tally bounds the log after one more block, too. */
  lemma TallyNext(sb: Super, l: set<nat>, l0: nat, c: Tally, bn: nat, addr: nat, ind: nat, before: nat, hadAddr: bool)
    requires Tallied(sb, l, l0, c, before) && (before != 0 ==> ind == before) && (bn >= NDIRECT ==> 0 < ind < sb.size)
    requires addr < sb.size
    ensures var l' := l + BmapLog(sb, bn, addr, ind, hadAddr, before != 0) + {addr};
            Tallied(sb, l', l0, Next(c, bn, hadAddr, before != 0), ind)
  {
    OneBlockLogged(sb, l, bn, addr, ind, hadAddr, before != 0);
    if sb.size <= BPB {
      OneMapLogged(sb, l, bn, addr, ind, hadAddr, before != 0);
    }
  }

  /** With one bitmap block, a second block allocated adds nothing for its bit. */
  lemma OneMapLogged(sb: Super, l: set<nat>, bn: nat, addr: nat, ind: nat, hadAddr: bool, hadInd: bool)
    requires addr < BPB && (bn >= NDIRECT ==> ind < BPB)
    ensures var l' := l + BmapLog(sb, bn, addr, ind, hadAddr, hadInd) + {addr};
      && |l'| <= |l| + 1 + (if hadAddr || sb.bmapstart in l then 0 else 1)
                 + (if hadAddr || bn < NDIRECT || ind in l then 0 else 1)
      && (!hadAddr ==> sb.bmapstart in l')
  {
    OneMapLog(sb, bn, addr, ind, hadAddr, hadInd);
    hide BmapLog;
    if hadAddr {
      assert l + {} + {addr} == l + {addr};
      AddOne(l, addr);
    } else if bn < NDIRECT {
      AddPair(l, addr, sb.bmapstart);
    } else {
      AddTriple(l, addr, sb.bmapstart, ind);
    }
  }

  lemma AddPair(l: set<nat>, x: nat, m: nat)
    ensures |l + {m, x} + {x}| <= |l| + 1 + (if m in l then 0 else 1)
  {
    assert l + {m, x} + {x} == l + {m} + {x};
    AddOne(l, m);
    AddOne(l + {m}, x);
  }

  lemma AddTriple(l: set<nat>, x: nat, m: nat, y: nat)
    ensures |l + {m, x, y} + {x}| <= |l| + 1 + (if m in l then 0 else 1) + (if y in l then 0 else 1)
  {
    assert l + {m, x, y} + {x} == l + {m} + {y} + {x};
    AddOne(l, m);
    AddOne(l + {m}, y);
    AddOne(l + {m} + {y}, x);
  }

  lemma OneMapLog(sb: Super, bn: nat, addr: nat, ind: nat, hadAddr: bool, hadInd: bool)
    requires addr < BPB && (bn >= NDIRECT ==> ind < BPB)
    ensures BmapLog(sb, bn, addr, ind, hadAddr, hadInd) ==
      if hadAddr then {} else if bn < NDIRECT then {sb.bmapstart, addr} else {sb.bmapstart, addr, ind}
  {
    assert BBlock(sb, addr) == sb.bmapstart && (bn >= NDIRECT ==> BBlock(sb, ind) == sb.bmapstart);
  }

  lemma BmapSizes(sb: Super, v: Vol, w: Vol, i: nat, bn: nat, addr: nat)
    requires BmapDone(sb, v, w, i, bn, addr)
    ensures Owned(sb, w) && bn < MAXFILE && Name(w, i, PosOf(bn)) == addr && 0 < addr < |w.blocks| == sb.size
    ensures Name(v, i, PosOf(bn)) != 0 ==> w == v
    ensures addr < sb.size && (bn >= NDIRECT ==> 0 < Name(w, i, NDIRECT) < sb.size)
    ensures Name(v, i, NDIRECT) != 0 ==> Name(w, i, NDIRECT) == Name(v, i, NDIRECT)
  {
    NameInRange(sb, w, i, PosOf(bn));
    if bn >= NDIRECT {
      NoIndirect(w, i, bn);
      NameInRange(sb, w, i, NDIRECT);
    }
  }

  /** now blocks are logged, of which before were there before n bytes were written at off. */
  ghost predicate Room(sb: Super, now: nat, before: nat, off: nat, n: nat, whole: bool) {
    now <= before + LogBound(off, n, whole) && (sb.size <= BPB ==> now <= before + LogBoundOneMap(off, n))
  }

  lemma CountedBound(sb: Super, l: set<nat>, l0: nat, c: Tally, ind: nat, whole: bool, off: nat, n: nat)
    requires Counted(c, whole, off, n, n) && Tallied(sb, l, l0, c, ind)
    ensures Room(sb, |l| + (if n == 0 then 0 else 1), l0, off, n, whole)
  {
  }

  /** Without an indirect block, no block past the direct ones is named. */
  lemma NoIndirect(v: Vol, i: nat, bn: nat)
    requires NDIRECT <= bn < MAXFILE
    ensures Name(v, i, NDIRECT) == 0 ==> Name(v, i, PosOf(bn)) == 0
  {
  }

  lemma EntryKept(v: Vol, w: Vol, i: nat, bn: nat)
    requires NDIRECT <= bn < MAXFILE && SameNamesExcept(v, w, i, NDIRECT)
    ensures Name(w, i, PosOf(bn)) == Name(v, i, PosOf(bn))
  {
  }

  /** bmap has made addr the block bn of file i, keeping all that was there. */
  ghost predicate BmapDone(sb: Super, v: Vol, w: Vol, i: nat, bn: nat, addr: nat) {
    && Owned(sb, w) && Kept(v, w, i)
    && bn < MAXFILE && addr != 0 && Name(w, i, PosOf(bn)) == addr
    && (Name(v, i, PosOf(bn)) != 0 ==> w == v)
    && (Name(v, i, PosOf(bn)) == 0 ==> addr < |w.blocks| && w.blocks[addr] == ZeroBlock())
    && (forall p :: 0 <= p < NPOS && p != PosOf(bn) && p != NDIRECT ==> Name(w, i, p) == Name(v, i, p))
  }
}
