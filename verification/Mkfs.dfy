/**
 Building the initial image: blocks are handed out in increasing order from a counter, files are
 appended block by block, and at the end one bitmap block marks everything below the counter.
 */
module Mkfs {
  import opened Volume
  import opened Fs

  const FSSIZE := 1000
  const NINODES := 200
  const LOGSIZE := 30
  const NINODEBLOCKS := NINODES / IPB + 1
  const INODES_FIT := NINODEBLOCKS * IPB
  const NBITMAP := FSSIZE / (BSIZE * 8) + 1
  const NMETA := 2 + LOGSIZE + NINODEBLOCKS + NBITMAP
  const ROOTINO := 1

  /** The superblock mkfs writes. */
  const SB := Super(FSSIZE, NMETA, 2 + LOGSIZE + NINODEBLOCKS, 2 + LOGSIZE)

  /** The bitmap that marks the first n blocks. */
  function FirstMarked(n: nat): (bits: seq<bool>) {
    seq(FSSIZE, b => b < n)
  }

  /** The volume being built: every block below the counter is in use, the rest are cleared. */
  function Built(blocks: seq<Block>, inodes: map<nat, Inode>, freeblock: nat): (v: Vol) {
    Vol(FirstMarked(freeblock), blocks, inodes)
  }

  ghost predicate RestClear(blocks: seq<Block>, freeblock: nat) {
    |blocks| == FSSIZE && forall b :: freeblock <= b < FSSIZE ==> blocks[b] == ZeroBlock()
  }

  ghost predicate Good(blocks: seq<Block>, inodes: map<nat, Inode>, freeblock: nat) {
    freeblock <= FSSIZE && RestClear(blocks, freeblock) && Owned(SB, Built(blocks, inodes, freeblock))
  }

  /** The counter's next value is a free, cleared block; handing it out is an allocation. */
  lemma HandOut(blocks: seq<Block>, inodes: map<nat, Inode>, freeblock: nat, i: nat)
    requires Good(blocks, inodes, freeblock) && freeblock < FSSIZE && i in inodes
    ensures var v, w := Built(blocks, inodes, freeblock), Built(blocks, inodes, freeblock + 1);
            && Good(blocks, inodes, freeblock + 1) && Kept(v, w, i) && SameNames(v, w)
            && Unnamed(w, freeblock) && SB.IsData(freeblock) && w.bits[freeblock]
  {
    var v, w := Built(blocks, inodes, freeblock), Built(blocks, inodes, freeblock + 1);
    assert w.bits == v.bits[freeblock := true];
    assert w.blocks == v.blocks[freeblock := ZeroBlock()];
    assert w == Take(v, freeblock);
    TakeOwned(SB, v, freeblock);
    TakeKept(SB, v, i, freeblock);
  }

  class Image {
    var blocks: seq<Block>
    var inodes: map<nat, Inode>
    var bits: seq<bool>
    var freeblock: nat
    var freeinode: nat

    ghost predicate Valid()
      reads this
    {
      Good(blocks, inodes, freeblock) && forall i :: i in inodes ==> i < freeinode
    }

    ghost function V(): (v: Vol)
      reads this
    {
      Built(blocks, inodes, freeblock)
    }

    /** An image with no inodes and all blocks cleared. */
    constructor ()
      ensures Valid() && inodes == map[] && freeblock == NMETA && freeinode == 1 && NoLeak(SB, V())
    {
      blocks := seq(FSSIZE, _ => ZeroBlock());
      inodes := map[];
      bits := seq(FSSIZE, _ => false);
      freeblock := NMETA;
      freeinode := 1;
    }

    /** A new empty inode. */
    method Ialloc() returns (inum: nat)
      requires Valid()
      modifies this`inodes, this`freeinode
      ensures Valid() && inum == old(freeinode) && freeinode == inum + 1
      ensures inum !in old(inodes) && inodes == old(inodes)[inum := Empty()]
      ensures NoLeak(SB, old(V())) ==> NoLeak(SB, V())
    {
      hide NoLeak;
      inum := freeinode;
      EmptyOwned(blocks, inodes, freeblock, inum);
      inodes := inodes[inum := Empty()];
      freeinode := freeinode + 1;
    }

    /** A slot of the inode held in din, filled if empty. */
    method Slot(inum: nat, din: Inode, s: nat) returns (r: Inode, x: nat)
      requires Good(blocks, inodes[inum := din], freeblock) && s <= NDIRECT
      modifies this`freeblock
      ensures r == (if din.addrs[s] == 0 then PutSlot(din, s, old(freeblock)) else din) && x == r.addrs[s]
      ensures freeblock == old(freeblock) + (if din.addrs[s] == 0 then 1 else 0)
      ensures freeblock <= FSSIZE ==>
                Filled(blocks, inodes[inum := din], old(freeblock), blocks, inodes[inum := r], freeblock, inum, s)
    {
      hide Good, Filled;
      r := din;
      SlotFilled(blocks, inodes[inum := din], freeblock, inum, s);
      if r.addrs[s] == 0 {
        assert inodes[inum := din][inum := PutSlot(din, s, freeblock)] == inodes[inum := PutSlot(din, s, freeblock)];
        r := PutSlot(r, s, freeblock);
        freeblock := freeblock + 1;
      }
      x := r.addrs[s];
    }

    /** Entry k of the indirect block ind, filled if empty; false if the image is too small. */
    method Entry(inum: nat, din: Inode, ind: nat, k: nat) returns (ok: bool, x: nat)
      requires Good(blocks, inodes[inum := din], freeblock) && k < NINDIRECT && ind == din.addrs[NDIRECT] != 0
      modifies this`blocks, this`freeblock
      ensures !ok <==> freeblock > FSSIZE
      ensures ok ==> Filled(old(blocks), inodes[inum := din], old(freeblock),
                            blocks, inodes[inum := din], freeblock, inum, NDIRECT + 1 + k)
      ensures ok ==> x == Name(Built(blocks, inodes[inum := din], freeblock), inum, NDIRECT + 1 + k)
      ensures freeblock == old(freeblock)
        + if Name(Built(old(blocks), inodes[inum := din], old(freeblock)), inum, NDIRECT + 1 + k) == 0 then 1 else 0
    {
      hide Good, Filled, PutWord, Word;
      GoodName(blocks, inodes[inum := din], freeblock, inum, NDIRECT);
      EntryFilled(blocks, inodes[inum := din], freeblock, inum, k);
      var a := blocks[ind];
      if Word(a, k) == 0 {
        if freeblock >= FSSIZE {
          freeblock := freeblock + 1;
          return false, 0;
        }
        blocks := blocks[ind := PutWord(a, k, freeblock)];
        freeblock := freeblock + 1;
      }
      x := Word(blocks[ind], k);
      ok := true;
    }

    /** The block that holds block fbn of the inode in din, allocated if absent. */
    method MapBlock(inum: nat, din: Inode, fbn: nat) returns (ok: bool, r: Inode, x: nat)
      requires Good(blocks, inodes[inum := din], freeblock) && fbn < MAXFILE
      modifies this`blocks, this`freeblock
      ensures !ok <==> freeblock > FSSIZE
      ensures ok ==>
        && Good(blocks, inodes[inum := r], freeblock)
        && BmapDone(SB, Built(old(blocks), inodes[inum := din], old(freeblock)),
                    Built(blocks, inodes[inum := r], freeblock), inum, fbn, x)
        && OnlyMapped(Built(old(blocks), inodes[inum := din], old(freeblock)),
                      Built(blocks, inodes[inum := r], freeblock), inum, fbn)
        && (r.addrs[NDIRECT] != 0 <==> din.addrs[NDIRECT] != 0 || fbn >= NDIRECT)
      ensures freeblock <= old(freeblock) + MapCost(Built(old(blocks), inodes[inum := din], old(freeblock)), inum, fbn)
      ensures ok ==>
        freeblock == old(freeblock) + MapCost(Built(old(blocks), inodes[inum := din], old(freeblock)), inum, fbn)
      ensures ok && NoLeak(SB, Built(old(blocks), inodes[inum := din], old(freeblock))) ==>
        NoLeak(SB, Built(blocks, inodes[inum := r], freeblock))
    {
      hide Good, Filled, Name, BmapDone, OnlyMapped, MapCost, NoLeak;
      MapCostIs(blocks, inodes[inum := din], freeblock, inum, fbn);
      ghost var bs, fb := blocks, freeblock;
      GoodRange(blocks, inodes[inum := din], freeblock);
      if fbn < NDIRECT {
        r, x := Slot(inum, din, fbn);
        ok := freeblock <= FSSIZE;
        if ok {
          DirectDone(bs, inodes[inum := din], fb, inodes[inum := r], freeblock, inum, fbn);
          FilledNoLeak(bs, inodes[inum := din], fb, bs, inodes[inum := r], freeblock, inum, fbn);
        }
        return;
      }
      var ind;
      r, ind := Slot(inum, din, NDIRECT);
      if freeblock > FSSIZE {
        return false, r, 0;
      }
      ghost var fb1 := freeblock;
      FilledSlot(bs, inodes[inum := din], fb, inodes[inum := r], freeblock, inum);
      SlotEntry(bs, inodes[inum := din], fb, inodes[inum := r], freeblock, inum, fbn);
      ok, x := Entry(inum, r, ind, fbn - NDIRECT);
      if ok {
        IndirectDone(bs, inodes[inum := din], fb, inodes[inum := r], fb1, blocks, freeblock, inum, fbn);
        FilledNoLeak(bs, inodes[inum := din], fb, bs, inodes[inum := r], fb1, inum, NDIRECT);
        FilledNoLeak(bs, inodes[inum := r], fb1, blocks, inodes[inum := r], freeblock, inum, fbn + 1);
      }
    }

    /** One pass of iappend's loop. */
    method AppendChunk(inum: nat, din: Inode, p: seq<byte>, off: nat, t: nat, ghost v0: Vol)
      returns (ok: bool, r: Inode, m: nat)
      requires t < |p| && Appending(blocks, inodes[inum := din], freeblock, v0, inum, off, p, t)
      modifies this`blocks, this`freeblock
      ensures !ok <==> freeblock > FSSIZE
      ensures ok ==>
                m == Chunk(|p|, t, off + t) && Appending(blocks, inodes[inum := r], freeblock, v0, inum, off, p, t + m)
      ensures var more := Cost(off + t + Chunk(|p|, t, off + t)) - Cost(off + t);
        freeblock <= old(freeblock) + more && (ok ==> freeblock == old(freeblock) + more)
      ensures ok && NoLeak(SB, Built(old(blocks), inodes[inum := din], old(freeblock))) ==>
        NoLeak(SB, Built(blocks, inodes[inum := r], freeblock))
    {
      hide Appending, BmapDone, Overlay, Name, Good, Built, OnlyMapped, MapCost, Cost, NoLeak;
      AppendCost(blocks, inodes[inum := din], freeblock, v0, inum, off, p, t);
      var fbn := (off + t) / BSIZE;
      AppendRange(blocks, inodes[inum := din], freeblock, v0, inum, off, p, t);
      var x;
      ghost var bs, fb := blocks, freeblock;
      ok, r, x := MapBlock(inum, din, fbn);
      m := Chunk(|p|, t, off + t);
      if ok {
        AppendStep(bs, inodes[inum := din], fb, blocks, inodes[inum := r], freeblock, v0, inum, off, p, t, x);
        var data := Overlay(blocks[x], (off + t) % BSIZE, p[t..t + m]);
        DataNoLeak(blocks, inodes[inum := r], freeblock, inum, fbn, x, data, Built(bs, inodes[inum := din], fb));
        blocks := blocks[x := data];
      }
    }

    /** Append bytes to a file; false if an assertion fails or the image is too small, and mkfs exits. */
    method Iappend(inum: nat, p: seq<byte>) returns (ok: bool)
      requires Valid() && Snug(V(), inum)
      modifies this`blocks, this`inodes, this`freeblock
      ensures ok ==>
        && Valid() && Snug(V(), inum) && OthersSame(old(V()), V(), inum)
        && Contents(V(), inum) == Contents(old(V()), inum) + p
      ensures var size := |Contents(old(V()), inum)|;
        && (ok <==> size + |p| <= MAXBYTES && old(freeblock) + Cost(size + |p|) - Cost(size) <= FSSIZE)
        && (ok ==> freeblock == old(freeblock) + Cost(size + |p|) - Cost(size))
      ensures ok && NoLeak(SB, old(V())) ==> NoLeak(SB, V())
    {
      hide Good, Snug, Built, Contents, Appending, OthersSame, Cost, NoLeak;
      ghost var v0 := V();
      BuiltInode(blocks, inodes, freeblock, inum);
      var din := inodes[inum];
      var off := din.size;
      if off + |p| > MAXBYTES {
        return false;
      }
      ghost var i0 := inodes;
      assert inodes[inum := din] == inodes;
      AppendStart(blocks, inodes, freeblock, inum, off, p);
      var t := 0;
      while t < |p|
        invariant 0 <= t <= |p| && inodes == i0
        invariant Appending(blocks, inodes[inum := din], freeblock, v0, inum, off, p, t)
        invariant freeblock == old(freeblock) + Cost(off + t) - Cost(off)
        invariant NoLeak(SB, v0) ==> NoLeak(SB, Built(blocks, inodes[inum := din], freeblock))
      {
        var m;
        ok, din, m := AppendChunk(inum, din, p, off, t, v0);
        if !ok {
          CostGrows(off + t + Chunk(|p|, t, off + t), off + |p|);
          return;
        }
        t := t + m;
      }
      AppendRoom(blocks, inodes[inum := din], freeblock, v0, inum, off, p, t);
      AppendDone(blocks, inodes[inum := din], freeblock, v0, inum, off, p);
      SizeNoLeak(blocks, inodes[inum := din], freeblock, inum, off + |p|);
      assert inodes[inum := din][inum := din.(size := off + |p|)] == inodes[inum := din.(size := off + |p|)];
      inodes := inodes[inum := din.(size := off + |p|)];
      ok := true;
    }

    /** Copy a host file into inode inum, a buffer at a time. */
    method CopyFile(inum: nat, data: seq<byte>) returns (ok: bool)
      requires Valid() && Snug(V(), inum) && Contents(V(), inum) == []
      modifies this`blocks, this`inodes, this`freeblock
      ensures ok ==>
        && Valid() && Snug(V(), inum) && OthersSame(old(V()), V(), inum)
        && Contents(V(), inum) == data
      ensures ok <==> |data| <= MAXBYTES && old(freeblock) + Cost(|data|) <= FSSIZE
      ensures ok ==> freeblock == old(freeblock) + Cost(|data|)
      ensures ok && NoLeak(SB, old(V())) ==> NoLeak(SB, V())
    {
      hide Good, Snug, Built, Contents, OthersSame, Cost, NoLeak;
      NoCost();
      ValidRoom(blocks, inodes, freeblock);
      ghost var v := V();
      OthersRefl(v, inum);
      SnugSize(v, inum);
      var at := 0;
      while at < |data|
        invariant 0 <= at <= |data| && Valid() && Snug(V(), inum) && OthersSame(v, V(), inum) && SizeOk(V(), inum)
        invariant Contents(V(), inum) == data[..at] && at <= MAXBYTES
        invariant freeblock == old(freeblock) + Cost(at) <= FSSIZE
        invariant NoLeak(SB, v) ==> NoLeak(SB, V())
      {
        var cc := Least(|data| - at, BSIZE);
        ghost var u := V();
        ok := Iappend(inum, data[at..at + cc]);
        if !ok {
          CostGrows(at + cc, |data|);
          return;
        }
        SnugSize(V(), inum);
        OthersSameTrans(v, u, V(), inum);
        assert data[..at] + data[at..at + cc] == data[..at + cc];
        at := at + cc;
      }
      assert data[..at] == data;
      ok := true;
    }

    /** One file: a new inode, an entry for it in the root directory, and its bytes. */
    method AddFile(ghost files: seq<HostFile>, k: nat, file: HostFile) returns (ok: bool)
      requires k < |files| && file == files[k] && k + 2 < INODES_FIT
      requires Valid() && freeinode == k + 2 && Holds(V(), files, k)
      modifies this`blocks, this`inodes, this`freeblock, this`freeinode
      ensures ok ==> Valid() && freeinode == k + 3 && Holds(V(), files, k + 1)
      ensures var need := Cost(16 * (k + 3)) - Cost(16 * (k + 2)) + Cost(|file.data|);
        && (ok <==> |file.data| <= MAXBYTES && old(freeblock) + need <= FSSIZE)
        && (ok ==> freeblock == old(freeblock) + need)
      ensures ok && NoLeak(SB, old(V())) ==> NoLeak(SB, V())
    {
      hide Good, Snug, Built, Contents, OthersSame, Dirent, Holds, RootIs, Cost, NoLeak;
      NoCost();
      CostGrows(0, |file.data|);
      CostGrows(16 * (k + 2), 16 * (k + 3));
      var inum := Ialloc();
      NewFile(old(blocks), old(inodes), old(freeblock), inum, files, k);
      ghost var v := V();
      RootReady(v, files, k);
      ok := Iappend(ROOTINO, Dirent(inum, Plain(file.name)));
      if !ok {
        return;
      }
      ghost var u := V();
      SnugSize(u, ROOTINO);
      EntryAdded(v, u, files, k);
      ok := CopyFile(inum, file.data);
      if ok {
        FileAdded(u, V(), files, k);
      }
    }

    /** The root directory with its two entries for itself. */
    method MakeRoot(ghost files: seq<HostFile>) returns (ok: bool)
      requires Valid() && inodes == map[] && freeinode == ROOTINO
      modifies this`blocks, this`inodes, this`freeblock, this`freeinode
      ensures ok ==> Valid() && freeinode == 2 && Holds(V(), files, 0)
      ensures ok <==> old(freeblock) + Cost(32) <= FSSIZE
      ensures ok ==> freeblock == old(freeblock) + Cost(32)
      ensures ok && NoLeak(SB, old(V())) ==> NoLeak(SB, V())
    {
      hide Good, Snug, Contents, OthersSame, Dirent, Cost, NoLeak;
      NoCost();
      CostGrows(16, 32);
      var rootino := Ialloc();
      EmptyFile(V(), rootino);
      ok := Iappend(rootino, Dirent(rootino, [46]));
      if !ok {
        return;
      }
      SnugSize(V(), rootino);
      ok := Iappend(rootino, Dirent(rootino, [46, 46]));
      if ok {
        SnugSize(V(), rootino);
      }
    }

    /** Mark the first used blocks in the bitmap. */
    method Balloc(used: nat)
      requires used <= FSSIZE
      modifies this`bits
      ensures bits == FirstMarked(used)
      ensures |bits| == FSSIZE && forall b :: 0 <= b < FSSIZE ==> (bits[b] <==> b < used)
    {
      assert used < BSIZE * 8;
      bits := seq(FSSIZE, _ => false);
      var i := 0;
      while i < used
        invariant 0 <= i <= used && |bits| == FSSIZE && forall b :: 0 <= b < FSSIZE ==> (bits[b] <==> b < i)
      {
        bits := bits[i := true];
        i := i + 1;
      }
    }

    /**
     mkfs on a blank image. If it succeeds, every block named by an inode or an indirect block
     is named once and marked in the bitmap, every file holds the bytes given for it, and the
     root directory, whose size is rounded up, starts with the entries of all files. No block is
     marked that nothing names. It succeeds exactly if no file is too large and the blocks needed
     are there.
     */
    method Build(files: seq<HostFile>) returns (ok: bool)
      requires Valid() && inodes == map[] && freeinode == ROOTINO && |files| + 2 <= INODES_FIT
      modifies this
      ensures ok ==> Finished(Vol(bits, blocks, inodes), files)
      ensures ok ==>
        |bits| == FSSIZE && forall b :: 0 <= b < FSSIZE ==> (bits[b] <==> b < old(freeblock) + Need(files, |files|))
      ensures ok <==>
        && (forall q :: 0 <= q < |files| ==> |files[q].data| <= MAXBYTES)
        && old(freeblock) + Need(files, |files|) <= FSSIZE
      ensures ok && NoLeak(SB, old(V())) ==> NoLeak(SB, Vol(bits, blocks, inodes))
    {
      hide Good, Holds, Finished, Owned, Cost, NoLeak;
      NeedGrows(files, 0);
      ok := MakeRoot(files);
      if !ok {
        return;
      }
      var k := 0;
      while k < |files|
        invariant 0 <= k <= |files| && Valid() && freeinode == k + 2 && Holds(V(), files, k)
        invariant freeblock == old(freeblock) + Need(files, k)
        invariant forall q :: 0 <= q < k ==> |files[q].data| <= MAXBYTES
        invariant NoLeak(SB, old(V())) ==> NoLeak(SB, V())
      {
        NeedGrows(files, k + 1);
        ok := AddFile(files, k, files[k]);
        if !ok {
          return;
        }
        k := k + 1;
      }
      GoodRange(blocks, inodes, freeblock);
      RootThere(blocks, inodes, freeblock, files);
      var off := inodes[ROOTINO].size;
      SizeNoLeak(blocks, inodes, freeblock, ROOTINO, Rounded(off));
      inodes := inodes[ROOTINO := inodes[ROOTINO].(size := Rounded(off))];
      Balloc(freeblock);
    }
  }

  function PutSlot(din: Inode, s: nat, b: nat): (r: Inode)
    requires s <= NDIRECT
  {
    din.(addrs := din.addrs[s := b])
  }

  /** Place p of file i names a block, filled from the counter if it was empty; the rest is kept. */
  ghost predicate Filled(blocks: seq<Block>, inodes: map<nat, Inode>, freeblock: nat,
                         blocks': seq<Block>, inodes': map<nat, Inode>, freeblock': nat, i: nat, p: nat)
    requires p < NPOS
  {
    var v, w := Built(blocks, inodes, freeblock), Built(blocks', inodes', freeblock');
    && Good(blocks', inodes', freeblock') && Kept(v, w, i) && SameNamesExcept(v, w, i, p) && Name(w, i, p) != 0
    && freeblock <= freeblock' && (Name(v, i, p) != 0 ==> w == v)
    && (Name(v, i, p) == 0 ==> Name(w, i, p) < |w.blocks| && w.blocks[Name(w, i, p)] == ZeroBlock())
    && (Name(v, i, p) == 0 ==> Name(w, i, p) == freeblock && freeblock' == freeblock + 1)
  }

  /** The block handed out is named, so that none is lost. */
  lemma FilledNoLeak(blocks: seq<Block>, inodes: map<nat, Inode>, freeblock: nat,
                     blocks': seq<Block>, inodes': map<nat, Inode>, freeblock': nat, i: nat, p: nat)
    requires p < NPOS && Filled(blocks, inodes, freeblock, blocks', inodes', freeblock', i, p)
    ensures NoLeak(SB, Built(blocks, inodes, freeblock)) ==> NoLeak(SB, Built(blocks', inodes', freeblock'))
  {
    hide Name, Good, Kept;
    var v, w := Built(blocks, inodes, freeblock), Built(blocks', inodes', freeblock');
    if NoLeak(SB, v) && w != v {
      forall b: nat | SB.IsData(b) && b < |w.bits| && w.bits[b] ensures Used(w, b) {
        if b == freeblock {
          assert NamedBy(w, i, b);
        } else {
          var j: nat :| NamedBy(v, j, b);
          StillNamed(v, w, j, b);
        }
      }
    }
  }

  /** Writing a data block loses none. */
  lemma DataNoLeak(blocks: seq<Block>, inodes: map<nat, Inode>, freeblock: nat, i: nat, bn: nat, x: nat, data: Block,
                   v: Vol)
    requires BmapDone(SB, v, Built(blocks, inodes, freeblock), i, bn, x) && x < |blocks|
    ensures NoLeak(SB, Built(blocks, inodes, freeblock)) ==> NoLeak(SB, Built(blocks[x := data], inodes, freeblock))
  {
    hide NoLeak, Owned, Kept, Name;
    var w := Built(blocks, inodes, freeblock);
    PutDataOwned(SB, w, i, PosOf(bn), data);
    SameNamesNoLeak(w, PutBlock(w, x, data));
  }

  lemma SizeNoLeak(blocks: seq<Block>, inodes: map<nat, Inode>, freeblock: nat, i: nat, size: nat)
    requires i in inodes
    ensures NoLeak(SB, Built(blocks, inodes, freeblock)) ==>
      NoLeak(SB, Built(blocks, inodes[i := inodes[i].(size := size)], freeblock))
  {
    hide NoLeak;
    var w := Built(blocks, inodes, freeblock);
    PutSizeSame(w, i, size);
    SameNamesNoLeak(w, PutSize(w, i, size));
  }

  lemma SameNamesNoLeak(v: Vol, w: Vol)
    requires SameNames(v, w) && w.bits == v.bits
    ensures NoLeak(SB, v) ==> NoLeak(SB, w)
  {
    hide Name, NamedBy;
    if NoLeak(SB, v) {
      forall b: nat | SB.IsData(b) && b < |w.bits| && w.bits[b] ensures Used(w, b) {
        var j: nat :| NamedBy(v, j, b);
        StillNamed(v, w, j, b);
      }
    }
  }

  lemma GoodName(blocks: seq<Block>, inodes: map<nat, Inode>, freeblock: nat, i: nat, p: nat)
    requires Good(blocks, inodes, freeblock) && p < NPOS
    ensures |blocks| == FSSIZE && NMETA <= freeblock <= FSSIZE
    ensures var b := Name(Built(blocks, inodes, freeblock), i, p); b != 0 ==> b < freeblock && SB.IsData(b)
  {
    var v := Built(blocks, inodes, freeblock);
    if Name(v, i, p) != 0 {
      NameInRange(SB, v, i, p);
    }
    assert v.bits[NMETA - 1];
  }

  lemma SlotFilled(blocks: seq<Block>, inodes: map<nat, Inode>, freeblock: nat, i: nat, s: nat)
    requires Good(blocks, inodes, freeblock) && i in inodes && s <= NDIRECT
    ensures if inodes[i].addrs[s] != 0 then freeblock <= FSSIZE ==>
              Filled(blocks, inodes, freeblock, blocks, inodes, freeblock, i, s)
            else freeblock < FSSIZE ==>
              Filled(blocks, inodes, freeblock, blocks, inodes[i := PutSlot(inodes[i], s, freeblock)], freeblock + 1,
                     i, s)
  {
    hide Owned;
    var v := Built(blocks, inodes, freeblock);
    if inodes[i].addrs[s] != 0 {
      KeptRefl(v, i);
    } else if freeblock < FSSIZE {
      HandOut(blocks, inodes, freeblock, i);
      var u := Built(blocks, inodes, freeblock + 1);
      GoodName(blocks, inodes, freeblock, i, 0);
      PutAddrOwned(SB, u, i, s, freeblock);
      PutAddrKept(SB, u, i, s, freeblock);
      var w := PutAddr(u, i, s, freeblock);
      KeptTrans(v, u, w, i);
    }
  }

  lemma EntryFilled(blocks: seq<Block>, inodes: map<nat, Inode>, freeblock: nat, i: nat, k: nat)
    requires Good(blocks, inodes, freeblock) && i in inodes && k < NINDIRECT && inodes[i].addrs[NDIRECT] != 0
    ensures var ind := inodes[i].addrs[NDIRECT];
      && ind < |blocks|
      && if Word(blocks[ind], k) != 0 then freeblock <= FSSIZE ==>
           Filled(blocks, inodes, freeblock, blocks, inodes, freeblock, i, NDIRECT + 1 + k)
         else freeblock < FSSIZE ==>
           Filled(blocks, inodes, freeblock, blocks[ind := PutWord(blocks[ind], k, freeblock)], inodes, freeblock + 1,
                  i, NDIRECT + 1 + k)
  {
    hide Owned, PutWord, Word;
    var v := Built(blocks, inodes, freeblock);
    GoodName(blocks, inodes, freeblock, i, NDIRECT);
    if Word(blocks[inodes[i].addrs[NDIRECT]], k) != 0 {
      KeptRefl(v, i);
    } else if freeblock < FSSIZE {
      HandOut(blocks, inodes, freeblock, i);
      var u := Built(blocks, inodes, freeblock + 1);
      PutWordOwned(SB, u, i, k, freeblock);
      PutWordKept(SB, u, i, k, freeblock);
      var ind := inodes[i].addrs[NDIRECT];
      var w := PutBlock(u, ind, PutWord(blocks[ind], k, freeblock));
      KeptTrans(v, u, w, i);
    }
  }

  lemma GoodRange(blocks: seq<Block>, inodes: map<nat, Inode>, freeblock: nat)
    requires Good(blocks, inodes, freeblock)
    ensures NMETA <= freeblock <= FSSIZE
  {
    assert Built(blocks, inodes, freeblock).bits[NMETA - 1];
  }

  lemma FilledSlot(blocks: seq<Block>, inodes: map<nat, Inode>, freeblock: nat, inodes': map<nat, Inode>,
                   freeblock': nat, i: nat)
    requires Filled(blocks, inodes, freeblock, blocks, inodes', freeblock', i, NDIRECT)
    ensures Good(blocks, inodes', freeblock') && i in inodes' && inodes'[i].addrs[NDIRECT] != 0
  {
  }

  lemma DirectDone(blocks: seq<Block>, inodes: map<nat, Inode>, fb: nat, inodes': map<nat, Inode>, fb': nat, i: nat,
                   bn: nat)
    requires bn < NDIRECT && Filled(blocks, inodes, fb, blocks, inodes', fb', i, bn)
    ensures i in inodes' && Good(blocks, inodes', fb')
    ensures BmapDone(SB, Built(blocks, inodes, fb), Built(blocks, inodes', fb'), i, bn, inodes'[i].addrs[bn])
    ensures OnlyMapped(Built(blocks, inodes, fb), Built(blocks, inodes', fb'), i, bn)
  {
    hide Owned;
  }

  lemma IndirectDone(blocks: seq<Block>, inodes: map<nat, Inode>, fb: nat, inodes1: map<nat, Inode>, fb1: nat,
                     blocks2: seq<Block>, fb2: nat, i: nat, bn: nat)
    requires NDIRECT <= bn < MAXFILE
    requires Filled(blocks, inodes, fb, blocks, inodes1, fb1, i, NDIRECT)
    requires Filled(blocks, inodes1, fb1, blocks2, inodes1, fb2, i, bn + 1)
    ensures Good(blocks2, inodes1, fb2)
    ensures BmapDone(SB, Built(blocks, inodes, fb), Built(blocks2, inodes1, fb2), i, bn,
                     Name(Built(blocks2, inodes1, fb2), i, bn + 1))
    ensures OnlyMapped(Built(blocks, inodes, fb), Built(blocks2, inodes1, fb2), i, bn)
  {
    hide Owned, Kept;
    var u, v, w := Built(blocks, inodes, fb), Built(blocks, inodes1, fb1), Built(blocks2, inodes1, fb2);
    KeptTrans(u, v, w, i);
    NoIndirect(u, i, bn);
  }

  /** The blocks a file of a given size takes, its indirect block included. */
  function Cost(size: nat): (n: nat) {
    BlocksFor(size) + if BlocksFor(size) > NDIRECT then 1 else 0
  }

  /** That is the fewest data blocks that hold the bytes, and one more if they are more than the direct ones. */
  lemma CostIs(size: nat)
    ensures var n := Cost(size) - if size > NDIRECT * BSIZE then 1 else 0;
      size <= n * BSIZE < size + BSIZE
  {
  }

  lemma CostGrows(a: nat, b: nat)
    requires a <= b
    ensures Cost(a) <= Cost(b)
  {
    assert BlocksFor(a) <= BlocksFor(b);
  }

  lemma NoCost()
    ensures Cost(0) == 0
  {
  }

  /** The blocks that the root directory and the first k files take. */
  function Need(files: seq<HostFile>, k: nat): (n: nat)
    requires k <= |files|
  {
    Cost(16 * (k + 2)) + FilesNeed(files, k)
  }

  function FilesNeed(files: seq<HostFile>, k: nat): (n: nat)
    requires k <= |files|
  {
    if k == 0 then 0 else FilesNeed(files, k - 1) + Cost(|files[k - 1].data|)
  }

  lemma {:induction false} NeedGrows(files: seq<HostFile>, k: nat)
    requires k <= |files|
    ensures Need(files, k) <= Need(files, |files|)
    decreases |files| - k
  {
    if k < |files| {
      CostGrows(16 * (k + 2), 16 * (k + 3));
      NeedGrows(files, k + 1);
    }
  }

  /** The blocks that mapping block bn of file i takes. */
  function MapCost(v: Vol, i: nat, bn: nat): (n: nat)
    requires bn < MAXFILE
  {
    (if Name(v, i, PosOf(bn)) == 0 then 1 else 0) + if bn >= NDIRECT && Name(v, i, NDIRECT) == 0 then 1 else 0
  }

  lemma MapCostIs(blocks: seq<Block>, inodes: map<nat, Inode>, freeblock: nat, i: nat, bn: nat)
    requires i in inodes && bn < MAXFILE
    ensures var v := Built(blocks, inodes, freeblock);
      MapCost(v, i, bn) ==
      if bn < NDIRECT then if inodes[i].addrs[bn] == 0 then 1 else 0
      else (if Name(v, i, bn + 1) == 0 then 1 else 0) + if inodes[i].addrs[NDIRECT] == 0 then 1 else 0
  {
  }

  /** Filling the indirect slot changes no entry. */
  lemma SlotEntry(blocks: seq<Block>, inodes: map<nat, Inode>, fb: nat, inodes': map<nat, Inode>, fb': nat,
                  i: nat, bn: nat)
    requires NDIRECT <= bn < MAXFILE && Filled(blocks, inodes, fb, blocks, inodes', fb', i, NDIRECT)
    ensures Name(Built(blocks, inodes', fb'), i, bn + 1) == Name(Built(blocks, inodes, fb), i, bn + 1)
  {
  }

  /** The indirect block of file i is there exactly if a file of the given size needs one. */
  ghost predicate Tight(v: Vol, i: nat, size: nat) {
    Name(v, i, NDIRECT) != 0 <==> BlocksFor(size) > NDIRECT
  }

  /** t bytes of p have been appended to file i of v0 at off, the end of the file. */
  ghost predicate Appending(blocks: seq<Block>, inodes: map<nat, Inode>, freeblock: nat,
                            v0: Vol, i: nat, off: nat, p: seq<byte>, t: nat)
  {
    && Good(blocks, inodes, freeblock) && HoleFree(v0, i) && off == v0.inodes[i].size
    && Written(SB, v0, Built(blocks, inodes, freeblock), i, off, p, t)
    && NoneFrom(Built(blocks, inodes, freeblock), i, BlocksFor(off + t))
    && Tight(Built(blocks, inodes, freeblock), i, off + t)
  }

  lemma AppendRoom(blocks: seq<Block>, inodes: map<nat, Inode>, freeblock: nat, v0: Vol, i: nat, off: nat,
                   p: seq<byte>, t: nat)
    requires Appending(blocks, inodes, freeblock, v0, i, off, p, t)
    ensures freeblock <= FSSIZE
  {
  }

  lemma ValidRoom(blocks: seq<Block>, inodes: map<nat, Inode>, freeblock: nat)
    requires Good(blocks, inodes, freeblock)
    ensures freeblock <= FSSIZE
  {
  }

  /** What the next chunk takes. */
  lemma AppendCost(blocks: seq<Block>, inodes: map<nat, Inode>, freeblock: nat, v0: Vol, i: nat, off: nat,
                   p: seq<byte>, t: nat)
    requires Appending(blocks, inodes, freeblock, v0, i, off, p, t) && t < |p|
    ensures (off + t) / BSIZE < MAXFILE
    ensures MapCost(Built(blocks, inodes, freeblock), i, (off + t) / BSIZE) ==
      Cost(off + t + Chunk(|p|, t, off + t)) - Cost(off + t)
  {
    hide Good, OthersSame, ByteAt, Name, Owned;
    WrittenRange(SB, v0, Built(blocks, inodes, freeblock), i, off, p, t);
    ChunkBlocks(|p|, t, off);
    var bn := (off + t) / BSIZE;
    assert BlocksFor(off + t) == if (off + t) % BSIZE == 0 then bn else bn + 1;
  }

  /** Mapping block bn of file i maps no other block of it. */
  ghost predicate OnlyMapped(v: Vol, w: Vol, i: nat, bn: nat) {
    forall b :: 0 <= b < MAXFILE && b != bn ==> Name(w, i, PosOf(b)) == Name(v, i, PosOf(b))
  }

  /** File i has no block from number k on. */
  ghost predicate NoneFrom(v: Vol, i: nat, k: nat) {
    forall b :: k <= b < MAXFILE ==> Name(v, i, PosOf(b)) == 0
  }

  /** A file all of whose blocks up to its size exist, and no others. */
  ghost predicate Snug(v: Vol, i: nat) {
    HoleFree(v, i) && NoneFrom(v, i, BlocksFor(v.inodes[i].size)) && Tight(v, i, v.inodes[i].size)
  }

  lemma AppendStart(blocks: seq<Block>, inodes: map<nat, Inode>, freeblock: nat, i: nat, off: nat, p: seq<byte>)
    requires Good(blocks, inodes, freeblock) && Snug(Built(blocks, inodes, freeblock), i)
    requires off == inodes[i].size && off + |p| <= MAXBYTES
    ensures Appending(blocks, inodes, freeblock, Built(blocks, inodes, freeblock), i, off, p, 0)
  {
    WrittenStart(SB, Built(blocks, inodes, freeblock), i, off, p);
  }

  lemma AppendRange(blocks: seq<Block>, inodes: map<nat, Inode>, freeblock: nat, v0: Vol, i: nat, off: nat,
                    p: seq<byte>, t: nat)
    requires Appending(blocks, inodes, freeblock, v0, i, off, p, t) && t < |p|
    ensures Good(blocks, inodes, freeblock) && (off + t) / BSIZE < MAXFILE
  {
    WrittenRange(SB, v0, Built(blocks, inodes, freeblock), i, off, p, t);
  }

  lemma AppendStep(blocks: seq<Block>, inodes: map<nat, Inode>, fb: nat,
                   blocks1: seq<Block>, inodes1: map<nat, Inode>, fb1: nat,
                   v0: Vol, i: nat, off: nat, p: seq<byte>, t: nat, x: nat)
    requires Appending(blocks, inodes, fb, v0, i, off, p, t) && t < |p| && (off + t) / BSIZE < MAXFILE
    requires Good(blocks1, inodes1, fb1)
    requires BmapDone(SB, Built(blocks, inodes, fb), Built(blocks1, inodes1, fb1), i, (off + t) / BSIZE, x)
    requires OnlyMapped(Built(blocks, inodes, fb), Built(blocks1, inodes1, fb1), i, (off + t) / BSIZE)
    requires i in inodes && i in inodes1
    requires inodes1[i].addrs[NDIRECT] != 0 <==> inodes[i].addrs[NDIRECT] != 0 || (off + t) / BSIZE >= NDIRECT
    ensures x < |blocks1|
    ensures var m := Chunk(|p|, t, off + t);
      Appending(blocks1[x := Overlay(blocks1[x], (off + t) % BSIZE, p[t..t + m])], inodes1, fb1, v0, i, off, p, t + m)
  {
    hide Owned, Kept, Written, Overlay, Chunk, Name;
    var v, w := Built(blocks, inodes, fb), Built(blocks1, inodes1, fb1);
    WrittenKept(SB, v0, v, w, i, off, p, t, (off + t) / BSIZE, x);
    WriteStep(SB, v0, w, i, off, p, t);
    GoodName(blocks1, inodes1, fb1, i, PosOf((off + t) / BSIZE));
    var m := Chunk(|p|, t, off + t);
    var u := PutBlock(w, x, Overlay(blocks1[x], (off + t) % BSIZE, p[t..t + m]));
    WrittenOwned(SB, v0, u, i, off, p, t + m);
    PutDataOwned(SB, w, i, PosOf((off + t) / BSIZE), Overlay(blocks1[x], (off + t) % BSIZE, p[t..t + m]));
    assert BlocksFor(off + t) <= (off + t) / BSIZE + 1;
    ChunkBlocks(|p|, t, off);
    assert NoneFrom(u, i, BlocksFor(off + t + m));
    TightNext(v, u, i, off + t, off + t + m);
  }

  lemma TightNext(v: Vol, w: Vol, i: nat, a: nat, b: nat)
    requires Tight(v, i, a) && i in v.inodes && i in w.inodes && BlocksFor(b) == a / BSIZE + 1
    requires w.inodes[i].addrs[NDIRECT] != 0 <==> v.inodes[i].addrs[NDIRECT] != 0 || a / BSIZE >= NDIRECT
    ensures Tight(w, i, b)
  {
    assert BlocksFor(a) <= a / BSIZE + 1;
  }

  lemma ChunkBlocks(n: nat, t: nat, off: nat)
    requires t < n
    ensures BlocksFor(off + t + Chunk(n, t, off + t)) == (off + t) / BSIZE + 1
  {
  }

  lemma WrittenOwned(sb: Super, v0: Vol, v: Vol, i: nat, off: nat, src: seq<byte>, t: nat)
    requires Written(sb, v0, v, i, off, src, t)
    ensures Owned(sb, v)
  {
  }

  lemma AppendDone(blocks: seq<Block>, inodes: map<nat, Inode>, freeblock: nat, v0: Vol, i: nat, off: nat, p: seq<byte>)
    requires Appending(blocks, inodes, freeblock, v0, i, off, p, |p|)
    ensures i in inodes && i in v0.inodes && v0.inodes[i].size <= MAXBYTES && v0.inodes.Keys == inodes.Keys
    ensures var ino := inodes[i := inodes[i].(size := off + |p|)];
      var w := Built(blocks, ino, freeblock);
      && Good(blocks, ino, freeblock) && Snug(w, i) && OthersSame(v0, w, i)
      && Contents(w, i) == Contents(v0, i) + p
  {
    var v := Built(blocks, inodes, freeblock);
    WrittenContents(SB, v0, v, i, off, p);
    assert Splice(Contents(v0, i), off, p) == Contents(v0, i) + p;
  }

  lemma BuiltInode(blocks: seq<Block>, inodes: map<nat, Inode>, freeblock: nat, i: nat)
    requires Snug(Built(blocks, inodes, freeblock), i)
    ensures i in inodes && inodes[i].size <= MAXBYTES && Built(blocks, inodes, freeblock).inodes == inodes
    ensures |Contents(Built(blocks, inodes, freeblock), i)| == inodes[i].size
  {
  }

  function Empty(): (i: Inode) {
    Inode(0, seq(NDIRECT + 1, _ => 0))
  }

  lemma EmptyOwned(blocks: seq<Block>, inodes: map<nat, Inode>, freeblock: nat, i: nat)
    requires Good(blocks, inodes, freeblock) && i !in inodes
    ensures Good(blocks, inodes[i := Empty()], freeblock)
    ensures NoLeak(SB, Built(blocks, inodes, freeblock)) ==> NoLeak(SB, Built(blocks, inodes[i := Empty()], freeblock))
  {
    var v, w := Built(blocks, inodes, freeblock), Built(blocks, inodes[i := Empty()], freeblock);
    forall j, p | 0 <= p < NPOS ensures Name(w, j, p) == Name(v, j, p) {
    }
    SameNamesOwned(SB, v, w);
    SameNamesNoLeak(v, w);
    hide NoLeak;
  }

  // ---------------------------------------------------------------- the whole image

  datatype HostFile = HostFile(name: seq<byte>, data: seq<byte>)

  const DIRSIZ := 14

  /** A directory entry: the inode number, then the name, cut or padded to its field. */
  function Dirent(inum: nat, name: seq<byte>): (e: seq<byte>)
    requires inum < 0x1_0000
    ensures |e| == 16
  {
    [inum % 0x100, inum / 0x100] + seq(DIRSIZ, j requires 0 <= j < DIRSIZ => if j < |name| then name[j] else 0)
  }

  /** The name without the underscore that a host file may have in front. */
  function Plain(name: seq<byte>): (r: seq<byte>)
    ensures name == r || (name == [95] + r && r == name[1..])
    ensures name != [] && name[0] == 95 ==> r == name[1..]
  {
    if name != [] && name[0] == 95 then name[1..] else name
  }

  /** The root directory with the entries of the first k files. */
  function Entries(files: seq<HostFile>, k: nat): (s: seq<byte>)
    requires k <= |files| && k + 2 <= 0x1_0000
    ensures |s| == 16 * (k + 2)
  {
    if k == 0 then Dirent(ROOTINO, [46]) + Dirent(ROOTINO, [46, 46])
    else Entries(files, k - 1) + Dirent(k + 1, Plain(files[k - 1].name))
  }

  lemma SnugSize(v: Vol, i: nat)
    requires Snug(v, i)
    ensures SizeOk(v, i)
  {
  }

  lemma OthersRefl(v: Vol, i: nat)
    ensures OthersSame(v, v, i)
  {
  }

  ghost predicate FileIs(v: Vol, i: nat, data: seq<byte>) {
    Snug(v, i) && Contents(v, i) == data
  }

  ghost predicate RootIs(v: Vol, files: seq<HostFile>, k: nat) {
    k <= |files| && k + 2 <= 0x1_0000 && FileIs(v, ROOTINO, Entries(files, k))
  }

  /** The first k files are in place, and the root directory lists them. */
  ghost predicate Holds(v: Vol, files: seq<HostFile>, k: nat) {
    && RootIs(v, files, k)
    && forall q :: 0 <= q < k ==> FileIs(v, q + 2, files[q].data)
  }

  lemma FileKept(v: Vol, w: Vol, i: nat, j: nat, data: seq<byte>)
    requires OthersSame(v, w, i) && j != i && FileIs(v, j, data)
    ensures FileIs(w, j, data)
  {
    OthersContents(v, w, i, j);
  }

  lemma NewFile(blocks: seq<Block>, inodes: map<nat, Inode>, freeblock: nat, i: nat, files: seq<HostFile>, k: nat)
    requires i !in inodes && Holds(Built(blocks, inodes, freeblock), files, k)
    ensures var w := Built(blocks, inodes[i := Empty()], freeblock); Holds(w, files, k) && FileIs(w, i, [])
  {
    hide Entries;
    var v, w := Built(blocks, inodes, freeblock), Built(blocks, inodes[i := Empty()], freeblock);
    forall j, data | j in inodes && FileIs(v, j, data) ensures FileIs(w, j, data) {
      forall o | 0 <= o < MAXBYTES ensures ByteAt(w, j, o) == ByteAt(v, j, o) {
      }
      assert Contents(w, j) == Contents(v, j);
    }
    assert Contents(w, i) == [];
  }

  lemma RootReady(v: Vol, files: seq<HostFile>, k: nat)
    requires Holds(v, files, k)
    ensures Snug(v, ROOTINO) && SizeOk(v, ROOTINO) && |Contents(v, ROOTINO)| == 16 * (k + 2)
  {
  }

  lemma EntryAdded(v: Vol, w: Vol, files: seq<HostFile>, k: nat)
    requires k < |files| && k + 2 < 0x1_0000 && Holds(v, files, k) && FileIs(v, k + 2, [])
    requires Snug(w, ROOTINO) && OthersSame(v, w, ROOTINO) && SizeOk(v, ROOTINO) && SizeOk(w, ROOTINO)
    requires Contents(w, ROOTINO) == Contents(v, ROOTINO) + Dirent(k + 2, Plain(files[k].name))
    ensures RootIs(w, files, k + 1) && FileIs(w, k + 2, [])
    ensures forall q :: 0 <= q < k ==> FileIs(w, q + 2, files[q].data)
  {
    hide Snug, OthersSame, Contents, Dirent;
    FileKept(v, w, ROOTINO, k + 2, []);
    forall q | 0 <= q < k ensures FileIs(w, q + 2, files[q].data) {
      FileKept(v, w, ROOTINO, q + 2, files[q].data);
    }
  }

  lemma FileAdded(v: Vol, w: Vol, files: seq<HostFile>, k: nat)
    requires k < |files| && RootIs(v, files, k + 1) && forall q :: 0 <= q < k ==> FileIs(v, q + 2, files[q].data)
    requires OthersSame(v, w, k + 2) && FileIs(w, k + 2, files[k].data)
    ensures Holds(w, files, k + 1)
  {
    hide Snug, OthersSame, Contents, Entries;
    FileKept(v, w, k + 2, ROOTINO, Entries(files, k + 1));
    forall q | 0 <= q < k ensures FileIs(w, q + 2, files[q].data) {
      FileKept(v, w, k + 2, q + 2, files[q].data);
    }
  }

  lemma EmptyFile(v: Vol, i: nat)
    requires i in v.inodes && v.inodes[i] == Empty()
    ensures Snug(v, i) && Contents(v, i) == []
  {
  }

  /** The size given to the root directory in the end. */
  function Rounded(off: nat): (size: nat)
    ensures off < size <= off + BSIZE && size % BSIZE == 0
  {
    (off / BSIZE + 1) * BSIZE
  }

  /**
   A finished image: ownership holds, every file is there, the root directory starts with all
   entries, and it has a hole exactly when the entries fill their blocks.
   */
  ghost predicate Finished(v: Vol, files: seq<HostFile>) {
    && Owned(SB, v) && |files| + 2 <= INODES_FIT
    && (forall q :: 0 <= q < |files| ==> FileIs(v, q + 2, files[q].data))
    && RootFinished(v, Entries(files, |files|))
    && (HoleFree(v, ROOTINO) <==> |files| % 32 != 30)
  }

  ghost predicate RootFinished(v: Vol, entries: seq<byte>) {
    && ROOTINO in v.inodes && v.inodes[ROOTINO].size == Rounded(|entries|) && Rounded(|entries|) <= MAXBYTES
    && Contents(v, ROOTINO)[..|entries|] == entries
  }

  lemma RootThere(blocks: seq<Block>, inodes: map<nat, Inode>, freeblock: nat, files: seq<HostFile>)
    requires Good(blocks, inodes, freeblock) && Holds(Built(blocks, inodes, freeblock), files, |files|)
    requires |files| + 2 <= INODES_FIT
    ensures ROOTINO in inodes
    ensures var ino := inodes[ROOTINO := inodes[ROOTINO].(size := Rounded(inodes[ROOTINO].size))];
            Finished(Vol(FirstMarked(freeblock), blocks, ino), files)
  {
    hide Entries, Owned, Snug, Contents, HoleFree, RootFinished, Rounded;
    var v := Built(blocks, inodes, freeblock);
    SnugSize(v, ROOTINO);
    var off := inodes[ROOTINO].size;
    var entries := Entries(files, |files|);
    assert off == |entries|;
    RoundRoot(v, entries, |files|);
    var w := PutSize(v, ROOTINO, Rounded(off));
    PutSizeOwned(SB, v, ROOTINO, Rounded(off));
    forall q | 0 <= q < |files| ensures FileIs(w, q + 2, files[q].data) {
      FileKept(v, w, ROOTINO, q + 2, files[q].data);
    }
  }

  lemma RoundRoot(v: Vol, entries: seq<byte>, n: nat)
    requires FileIs(v, ROOTINO, entries) && |entries| == 16 * (n + 2) && n + 2 <= INODES_FIT
    ensures ROOTINO in v.inodes && v.inodes[ROOTINO].size == |entries|
    ensures var w := PutSize(v, ROOTINO, Rounded(|entries|));
            OthersSame(v, w, ROOTINO) && RootFinished(w, entries) && (HoleFree(w, ROOTINO) <==> n % 32 != 30)
  {
    hide ByteAt, Name, Contents, OthersSame, HoleFree, NoneFrom, SameNames;
    var off := |entries|;
    SnugSize(v, ROOTINO);
    var w := PutSize(v, ROOTINO, Rounded(off));
    PutSizeSame(v, ROOTINO, Rounded(off));
    PutSizeBytes(v, ROOTINO, Rounded(off));
    RootHole(v, w, off);
    RootPrefix(v, w, off);
    FullBlocks(n);
  }

  lemma FullBlocks(n: nat)
    ensures 16 * (n + 2) % BSIZE == 0 <==> n % 32 == 30
  {
  }

  lemma PutSizeSame(v: Vol, i: nat, size: nat)
    requires i in v.inodes
    ensures OthersSame(v, PutSize(v, i, size), i) && SameNames(v, PutSize(v, i, size))
  {
    var w := PutSize(v, i, size);
    forall j, q | 0 <= q < NPOS ensures Name(w, j, q) == Name(v, j, q) {
    }
  }

  lemma RootPrefix(v: Vol, w: Vol, off: nat)
    requires SizeOk(v, ROOTINO) && SizeOk(w, ROOTINO) && v.inodes[ROOTINO].size == off <= w.inodes[ROOTINO].size
    requires forall o :: 0 <= o < MAXBYTES ==> ByteAt(w, ROOTINO, o) == ByteAt(v, ROOTINO, o)
    ensures Contents(w, ROOTINO)[..off] == Contents(v, ROOTINO)
  {
    hide ByteAt;
  }

  lemma PutSizeBytes(v: Vol, i: nat, size: nat)
    requires i in v.inodes
    ensures forall j, o :: 0 <= o < MAXBYTES ==> ByteAt(PutSize(v, i, size), j, o) == ByteAt(v, j, o)
  {
  }

  /** The rounded size reaches into a block that does not exist exactly when the old size was round. */
  lemma RootHole(v: Vol, w: Vol, off: nat)
    requires Snug(v, ROOTINO) && v.inodes[ROOTINO].size == off && Rounded(off) <= MAXBYTES
    requires w == PutSize(v, ROOTINO, Rounded(off)) && SameNames(v, w)
    ensures HoleFree(w, ROOTINO) <==> off % BSIZE != 0
  {
    assert BlocksFor(Rounded(off)) == off / BSIZE + 1;
    if off % BSIZE == 0 {
      assert BlocksFor(off) == off / BSIZE;
      assert Name(w, ROOTINO, PosOf(off / BSIZE)) == 0;
    } else {
      assert BlocksFor(off) == off / BSIZE + 1;
    }
  }

  /**
   The inodes of the root and of n files lie in the inode blocks, before the bitmap, exactly if
   there are at most 206 files; the next inode would lie in the bitmap block.
   */
  lemma InodesFit(n: nat)
    ensures (forall i: nat :: i < n + 2 ==> SB.inodestart <= IBlock(SB, i) < SB.bmapstart) <==> n + 2 <= INODES_FIT
  {
    assert IBlock(SB, INODES_FIT) == SB.bmapstart;
    assert forall i: nat :: i < INODES_FIT ==> SB.inodestart <= IBlock(SB, i) < SB.bmapstart;
  }

  /** The inode number an entry of a directory holds, and its name field. */
  function EntryInum(e: seq<byte>): (i: nat)
    requires |e| == 16
  {
    e[0] as nat + 0x100 * e[1] as nat
  }

  /** An entry is read back as it was made: its number, and its name up to the length of the field. */
  lemma DirentIs(inum: nat, name: seq<byte>)
    requires inum < 0x1_0000
    ensures EntryInum(Dirent(inum, name)) == inum
    ensures forall j :: 0 <= j < DIRSIZ ==> Dirent(inum, name)[2 + j] == if j < |name| then name[j] else 0
  {
  }

  /** Entry q + 2 of the root directory is that of file q, and names its inode; the first two name the root. */
  lemma EntryOf(files: seq<HostFile>, k: nat, q: nat)
    requires q < k <= |files| && k + 2 <= 0x1_0000
    ensures Entries(files, k)[16 * (q + 2)..16 * (q + 3)] == Dirent(q + 2, Plain(files[q].name))
    ensures EntryInum(Entries(files, k)[16 * (q + 2)..16 * (q + 3)]) == q + 2
    ensures EntryInum(Entries(files, k)[..16]) == EntryInum(Entries(files, k)[16..32]) == ROOTINO
  {
    hide Dirent;
    DirentIs(q + 2, Plain(files[q].name));
    RootEntries(files, k);
    OneEntry(files, k, q);
  }

  lemma {:induction false} OneEntry(files: seq<HostFile>, k: nat, q: nat)
    requires q < k <= |files| && k + 2 <= 0x1_0000
    ensures Entries(files, k)[16 * (q + 2)..16 * (q + 3)] == Dirent(q + 2, Plain(files[q].name))
  {
    hide Dirent;
    if q < k - 1 {
      OneEntry(files, k - 1, q);
    }
  }

  lemma {:induction false} RootEntries(files: seq<HostFile>, k: nat)
    requires k <= |files| && k + 2 <= 0x1_0000
    ensures EntryInum(Entries(files, k)[..16]) == EntryInum(Entries(files, k)[16..32]) == ROOTINO
  {
    if k > 0 {
      RootEntries(files, k - 1);
      var e, d := Entries(files, k - 1), Dirent(k + 1, Plain(files[k - 1].name));
      assert (e + d)[..16] == e[..16] && (e + d)[16..32] == e[16..32];
    } else {
      var e := Entries(files, k);
      assert e[..16] == Dirent(ROOTINO, [46]) && e[16..32] == Dirent(ROOTINO, [46, 46]);
    }
  }

  /** The first entry of the root directory, its own, begins with its inode number. */
  lemma {:induction false} FirstEntry(files: seq<HostFile>, k: nat)
    requires k <= |files| && k + 2 <= 0x1_0000
    ensures Entries(files, k)[0] == ROOTINO
  {
    if k > 0 {
      FirstEntry(files, k - 1);
    }
  }

  /**
   With 30 files the entries fill one block, and the second block of the root does not exist: an
   entry written there would leave the inode on disk behind.
   */
  lemma ThirtyFiles(v: Vol, files: seq<HostFile>)
    requires |files| == 30 && Finished(v, files)
    ensures v.inodes[ROOTINO].size == 2 * BSIZE && Name(v, ROOTINO, PosOf(1)) == 0
    ensures !SlotsThere(v.inodes[ROOTINO].addrs, BSIZE, 16)
  {
    hide Owned, Entries;
    FirstEntry(files, 30);
    assert Rounded(BSIZE) == 2 * BSIZE && BlocksFor(2 * BSIZE) == 2;
    assert Contents(v, ROOTINO)[..BSIZE][0] == ByteAt(v, ROOTINO, 0);
    assert Name(v, ROOTINO, PosOf(0)) != 0;
    assert Touches(1, BSIZE, 16);
  }

  /** An image with 30 files gets built. */
  method ThirtyFilesImage() returns (v: Vol, files: seq<HostFile>)
    ensures |files| == 30 && Finished(v, files) && !HoleFree(v, ROOTINO) && NoLeak(SB, v)
  {
    hide Finished, HoleFree, FilesNeed, NoLeak;
    files := seq(30, _ => HostFile([], []));
    NoneNeeded(files, 30);
    assert Need(files, 30) == 1 && NMETA + 1 <= FSSIZE;
    var image := new Image();
    var ok := image.Build(files);
    v := Vol(image.bits, image.blocks, image.inodes);
    FinishedHole(v, files);
  }

  lemma FinishedHole(v: Vol, files: seq<HostFile>)
    requires Finished(v, files)
    ensures HoleFree(v, ROOTINO) <==> |files| % 32 != 30
  {
  }

  lemma {:induction false} NoneNeeded(files: seq<HostFile>, k: nat)
    requires k <= |files| && forall q :: 0 <= q < |files| ==> files[q].data == []
    ensures FilesNeed(files, k) == 0
  {
    if k > 0 {
      NoneNeeded(files, k - 1);
    }
  }
}
