/**
 A volume as it lies on the disk: which block holds what, and how bits, inodes and data are laid
 out in the 128 words of a block. A disk determines the files on it.
 */
module DiskLayout {
  import opened Volume
  import opened Fs
  import opened Wrappers
  import LogDisk
  import LogRuns
  import Mkfs

  // ---------------------------------------------------------------- what a block holds

  /** Part of the bitmap, some inodes, or data. */
  datatype Held = Bits(bits: seq<bool>) | Inodes(inodes: seq<Option<Inode>>) | Data(data: Block)

  predicate BitAt(v: Vol, b: nat) {
    b < |v.bits| && v.bits[b]
  }

  /** The block whose bit is bit k of bitmap block n. */
  function BitNo(sb: Super, n: nat, k: nat): (b: nat)
    requires sb.bmapstart <= n && k < BPB
    ensures BBlock(sb, b) == n && b % BPB == k
  {
    var q := n - sb.bmapstart;
    assert (q * BPB + k) / BPB == q && (q * BPB + k) % BPB == k;
    q * BPB + k
  }

  /** The inode that is the k-th of inode block n. */
  function InodeNo(sb: Super, n: nat, k: nat): (i: nat)
    requires sb.inodestart <= n && k < IPB
    ensures IBlock(sb, i) == n && i % IPB == k
  {
    var q := n - sb.inodestart;
    assert (q * IPB + k) / IPB == q && (q * IPB + k) % IPB == k;
    q * IPB + k
  }

  /** What block n of a volume holds; a block past the end of the volume counts as clear. */
  function HeldAt(sb: Super, v: Vol, n: nat): (h: Held) {
    if sb.bmapstart <= n < sb.datastart then
      Bits(seq(BPB, k requires 0 <= k < BPB => BitAt(v, BitNo(sb, n, k))))
    else if sb.inodestart <= n < sb.bmapstart then
      Inodes(seq(IPB, k requires 0 <= k < IPB => InodeOf(v, InodeNo(sb, n, k))))
    else Data(if n < |v.blocks| then v.blocks[n] else ZeroBlock())
  }

  ghost predicate Proper(h: Held) {
    (h.Bits? ==> |h.bits| == BPB) && (h.Inodes? ==> |h.inodes| == IPB)
  }

  lemma HeldProper(sb: Super, v: Vol, n: nat)
    ensures Proper(HeldAt(sb, v, n))
  {
  }

  /** The kind of a block depends on where it lies only. */
  lemma HeldKind(sb: Super, v: Vol, w: Vol, n: nat)
    ensures HeldAt(sb, v, n).Bits? <==> HeldAt(sb, w, n).Bits?
    ensures HeldAt(sb, v, n).Inodes? <==> HeldAt(sb, w, n).Inodes?
  {
  }

  /** What is not in the blocks that changed is held as before. */
  lemma FramedHeld(sb: Super, v: Vol, w: Vol, l: set<nat>, n: nat)
    requires Framed(sb, v, w, l) && n !in l
    ensures HeldAt(sb, w, n) == HeldAt(sb, v, n)
  {
    hide BBlock, IBlock, BitNo, InodeNo;
    if sb.bmapstart <= n < sb.datastart {
      forall k | 0 <= k < BPB ensures BitAt(w, BitNo(sb, n, k)) == BitAt(v, BitNo(sb, n, k)) {
      }
    } else if sb.inodestart <= n < sb.bmapstart {
      forall k | 0 <= k < IPB ensures InodeOf(w, InodeNo(sb, n, k)) == InodeOf(v, InodeNo(sb, n, k)) {
      }
      assert HeldAt(sb, w, n).inodes == HeldAt(sb, v, n).inodes;
    }
  }

  // ---------------------------------------------------------------- words

  /** Bits as a number, lowest first. */
  function Num(bits: seq<bool>): (n: nat) {
    if bits == [] then 0 else (if bits[0] then 1 else 0) + 2 * Num(bits[1..])
  }

  /**
   Word f of an inode's 16: in use or not, a word for fields that are no part of this model, the
   size, and the 13 addresses.
   */
  function InodeWord(i: Option<Inode>, f: nat): (w: nat)
    requires f < 16
  {
    if i.None? || f == 1 then 0 else if f == 0 then 1 else if f == 2 then i.value.size else i.value.addrs[f - 3]
  }

  function WordOf(h: Held, j: nat): (w: nat)
    requires Proper(h) && j < LogDisk.WORDS
  {
    match h
    case Bits(bits) => Num(bits[32 * j..32 * j + 32])
    case Inodes(inodes) => InodeWord(inodes[j / 16], j % 16)
    case Data(data) => Word(data, j)
  }

  function Layout(h: Held): (b: LogDisk.Block)
    requires Proper(h)
  {
    LogDisk.Words(seq(LogDisk.WORDS, j requires 0 <= j < LogDisk.WORDS => WordOf(h, j)))
  }

  // ---------------------------------------------------------------- a word is 32 bits

  /** Fields that fit in a word. */
  ghost predicate Narrow(i: Inode) {
    i.size < UINT && forall k :: 0 <= k <= NDIRECT ==> i.addrs[k] < UINT
  }

  /** Every number laid out fits in a word. */
  lemma LayoutFits(h: Held, j: nat)
    requires Proper(h) && j < LogDisk.WORDS
    requires h.Inodes? ==> forall k :: 0 <= k < IPB && h.inodes[k].Some? ==> Narrow(h.inodes[k].value)
    ensures Layout(h).w[j] < UINT
  {
    if h.Bits? {
      NumBound(h.bits[32 * j..32 * j + 32]);
      TwoIs();
    }
  }

  lemma {:induction false} NumBound(bits: seq<bool>)
    ensures Num(bits) < Two(|bits|)
  {
    if bits != [] {
      NumBound(bits[1..]);
    }
  }

  function Two(k: nat): (n: nat) {
    if k == 0 then 1 else 2 * Two(k - 1)
  }

  lemma TwoIs()
    ensures Two(32) == UINT
  {
    assert Two(8) == 0x100;
    assert Two(16) == 0x1_0000;
    assert Two(24) == 0x100_0000;
  }

  // ---------------------------------------------------------------- the layout can be read back

  lemma {:induction false} NumInjective(a: seq<bool>, b: seq<bool>)
    requires |a| == |b| && Num(a) == Num(b)
    ensures a == b
  {
    if a != [] {
      NumInjective(a[1..], b[1..]);
      assert a == [a[0]] + a[1..] && b == [b[0]] + b[1..];
    }
  }

  lemma BitsInjective(a: seq<bool>, b: seq<bool>)
    requires |a| == |b| == BPB && Layout(Bits(a)) == Layout(Bits(b))
    ensures a == b
  {
    forall p | 0 <= p < BPB ensures a[p] == b[p] {
      var j := p / 32;
      assert Layout(Bits(a)).w[j] == WordOf(Bits(a), j) && Layout(Bits(b)).w[j] == WordOf(Bits(b), j);
      NumInjective(a[32 * j..32 * j + 32], b[32 * j..32 * j + 32]);
      assert a[p] == a[32 * j..32 * j + 32][p - 32 * j] && b[p] == b[32 * j..32 * j + 32][p - 32 * j];
    }
  }

  lemma WordBytes(a: Block, b: Block, j: nat)
    requires j < NINDIRECT && Word(a, j) == Word(b, j)
    ensures a[4 * j] == b[4 * j] && a[4 * j + 1] == b[4 * j + 1]
    ensures a[4 * j + 2] == b[4 * j + 2] && a[4 * j + 3] == b[4 * j + 3]
  {
    DigitsEqual(a[4 * j], a[4 * j + 1], a[4 * j + 2], a[4 * j + 3],
                b[4 * j], b[4 * j + 1], b[4 * j + 2], b[4 * j + 3]);
  }

  lemma DigitsEqual(a0: int, a1: int, a2: int, a3: int, b0: int, b1: int, b2: int, b3: int)
    requires 0 <= a0 < 256 && 0 <= a1 < 256 && 0 <= a2 < 256 && 0 <= b0 < 256 && 0 <= b1 < 256 && 0 <= b2 < 256
    requires a0 + 0x100 * a1 + 0x1_0000 * a2 + 0x100_0000 * a3 == b0 + 0x100 * b1 + 0x1_0000 * b2 + 0x100_0000 * b3
    ensures a0 == b0 && a1 == b1 && a2 == b2 && a3 == b3
  {
    var x, y := a1 + 0x100 * a2 + 0x1_0000 * a3, b1 + 0x100 * b2 + 0x1_0000 * b3;
    assert a0 + 0x100 * x == b0 + 0x100 * y;
    assert a2 + 0x100 * a3 == b2 + 0x100 * b3;
  }

  lemma DataInjective(a: Block, b: Block)
    requires Layout(Data(a)) == Layout(Data(b))
    ensures a == b
  {
    forall k | 0 <= k < BSIZE ensures a[k] == b[k] {
      var j := k / 4;
      assert Layout(Data(a)).w[j] == WordOf(Data(a), j) && Layout(Data(b)).w[j] == WordOf(Data(b), j);
      WordBytes(a, b, j);
      assert k == 4 * j || k == 4 * j + 1 || k == 4 * j + 2 || k == 4 * j + 3;
    }
  }

  lemma InodeInjective(a: Option<Inode>, b: Option<Inode>)
    requires forall f :: 0 <= f < 16 ==> InodeWord(a, f) == InodeWord(b, f)
    ensures a == b
  {
    assert InodeWord(a, 0) == InodeWord(b, 0);
    if a.Some? {
      assert InodeWord(a, 2) == InodeWord(b, 2);
      forall k | 0 <= k <= NDIRECT ensures a.value.addrs[k] == b.value.addrs[k] {
        assert InodeWord(a, k + 3) == InodeWord(b, k + 3);
      }
      assert a.value.addrs == b.value.addrs;
    }
  }

  lemma InodesInjective(a: seq<Option<Inode>>, b: seq<Option<Inode>>)
    requires |a| == |b| == IPB && Layout(Inodes(a)) == Layout(Inodes(b))
    ensures a == b
  {
    forall k | 0 <= k < IPB ensures a[k] == b[k] {
      forall f | 0 <= f < 16 ensures InodeWord(a[k], f) == InodeWord(b[k], f) {
        var j := 16 * k + f;
        assert Layout(Inodes(a)).w[j] == WordOf(Inodes(a), j) && Layout(Inodes(b)).w[j] == WordOf(Inodes(b), j);
        assert j / 16 == k && j % 16 == f;
      }
      InodeInjective(a[k], b[k]);
    }
  }

  /** Blocks of one kind with the same words hold the same. */
  lemma LayoutInjective(a: Held, b: Held)
    requires Proper(a) && Proper(b) && (a.Bits? <==> b.Bits?) && (a.Inodes? <==> b.Inodes?)
    requires Layout(a) == Layout(b)
    ensures a == b
  {
    match a
    case Bits(x) => BitsInjective(x, b.bits);
    case Inodes(x) => InodesInjective(x, b.inodes);
    case Data(x) => DataInjective(x, b.data);
  }

  // ---------------------------------------------------------------- the disk of a volume

  /** The file-system blocks of a disk that holds v. */
  ghost function Image(g: LogDisk.Geometry, sb: Super, v: Vol): (h: map<nat, LogDisk.Block>) {
    map n: nat | n < g.total && g.IsHome(n) :: ImageAt(sb, v, n)
  }

  function ImageAt(sb: Super, v: Vol, n: nat): (b: LogDisk.Block) {
    HeldProper(sb, v, n);
    Layout(HeldAt(sb, v, n))
  }

  /** Inodes lie in the inode blocks, data blocks behind the bitmap, and neither in the log. */
  ghost predicate LaidOut(g: LogDisk.Geometry, sb: Super, v: Vol) {
    && sb.inodestart <= sb.bmapstart <= sb.datastart
    && (forall i :: i in v.inodes ==> sb.inodestart <= IBlock(sb, i) < sb.bmapstart && g.IsHome(IBlock(sb, i)))
    && (forall b: nat :: sb.IsData(b) ==> g.IsHome(b))
  }

  lemma SameHeld(g: LogDisk.Geometry, sb: Super, v: Vol, w: Vol, n: nat)
    requires Image(g, sb, v) == Image(g, sb, w) && g.IsHome(n)
    ensures HeldAt(sb, v, n) == HeldAt(sb, w, n)
  {
    hide HeldAt, Layout;
    assert Image(g, sb, v)[n] == ImageAt(sb, v, n) && Image(g, sb, w)[n] == ImageAt(sb, w, n);
    HeldProper(sb, v, n);
    HeldProper(sb, w, n);
    HeldKind(sb, v, w, n);
    LayoutInjective(HeldAt(sb, v, n), HeldAt(sb, w, n));
  }

  lemma InodeHeld(sb: Super, v: Vol, i: nat)
    requires sb.inodestart <= IBlock(sb, i) < sb.bmapstart
    ensures var h := HeldAt(sb, v, IBlock(sb, i)); h.Inodes? && |h.inodes| == IPB && h.inodes[i % IPB] == InodeOf(v, i)
  {
    assert InodeNo(sb, IBlock(sb, i), i % IPB) == i;
  }

  lemma SameInode(g: LogDisk.Geometry, sb: Super, v: Vol, w: Vol, i: nat)
    requires LaidOut(g, sb, v) && Image(g, sb, v) == Image(g, sb, w) && i in v.inodes
    ensures i in w.inodes && w.inodes[i] == v.inodes[i]
  {
    hide HeldAt, Image;
    SameHeld(g, sb, v, w, IBlock(sb, i));
    InodeHeld(sb, v, i);
    InodeHeld(sb, w, i);
  }

  lemma SameData(g: LogDisk.Geometry, sb: Super, v: Vol, w: Vol, b: nat)
    requires LaidOut(g, sb, v) && WellSized(sb, v) && WellSized(sb, w)
    requires Image(g, sb, v) == Image(g, sb, w) && sb.IsData(b)
    ensures v.blocks[b] == w.blocks[b]
  {
    hide Image;
    SameHeld(g, sb, v, w, b);
  }

  lemma SameByte(g: LogDisk.Geometry, sb: Super, v: Vol, w: Vol, i: nat, o: nat)
    requires LaidOut(g, sb, v) && Owned(sb, v) && WellSized(sb, w)
    requires Image(g, sb, v) == Image(g, sb, w) && o < MAXBYTES
    requires i in v.inodes && i in w.inodes && w.inodes[i] == v.inodes[i]
    ensures ByteAt(w, i, o) == ByteAt(v, i, o)
  {
    hide Image, LaidOut, HeldAt, NamedOnce, Word;
    var p := PosOf(o / BSIZE);
    var ind := v.inodes[i].addrs[NDIRECT];
    if ind != 0 {
      NameInRange(sb, v, i, NDIRECT);
      SameData(g, sb, v, w, ind);
    }
    assert Name(w, i, p) == Name(v, i, p);
    if Name(v, i, p) != 0 {
      NameInRange(sb, v, i, p);
      SameData(g, sb, v, w, Name(v, i, p));
    }
  }

  /** A disk determines the files on it: two volumes with the same disk have the same. */
  lemma SameFiles(g: LogDisk.Geometry, sb: Super, v: Vol, w: Vol, i: nat)
    requires LaidOut(g, sb, v) && Owned(sb, v) && WellSized(sb, w) && Image(g, sb, v) == Image(g, sb, w) && SizeOk(v, i)
    ensures SizeOk(w, i) && w.inodes[i] == v.inodes[i] && Contents(w, i) == Contents(v, i)
  {
    hide Image, LaidOut;
    SameInode(g, sb, v, w, i);
    forall o | 0 <= o < v.inodes[i].size ensures ByteAt(w, i, o) == ByteAt(v, i, o) {
      SameByte(g, sb, v, w, i, o);
    }
  }

  /** The volumes of the layout that mkfs makes are laid out so. */
  lemma MkfsLaidOut(v: Vol)
    requires forall i :: i in v.inodes ==> i < Mkfs.INODES_FIT
    ensures LaidOut(LogRuns.XV6, Mkfs.SB, v)
  {
  }
}
