/**
 Writers at work together. Processes that write different files mix their block writes in one
 group of the log, sharing bitmap and inode blocks. After any run with crashes and recoveries the
 disk holds the volume after whole writes, one after another, in the order in which they finished.
 */
module MixedWrites {
  import opened Volume
  import opened Fs
  import opened Wrappers
  import CrashedFiles
  import DiskLayout
  import LogDisk
  import LogRuns

  // ---------------------------------------------------------------- one write

  /** src written at off to file i, computed on volume before, where it leads to after. */
  datatype Write = Write(i: nat, src: seq<byte>, off: nat, before: Vol, after: Vol, logged: set<nat>)

  ghost predicate IsWrite(sb: Super, w: Write) {
    && Owned(sb, w.before) && HoleFree(w.before, w.i) && WroteFile(sb, w.before, w.after, w.i, w.src, w.off)
    && Grown(w.before, w.after, w.i) && Framed(sb, w.before, w.after, w.logged)
  }

  /** A transaction of filewrite on a file without holes is a write, if all inodes on disk are up to date. */
  method WriteFile(fs: FileSystem, f: File, src: seq<byte>) returns (r: Outcome, ghost w: Write)
    requires Owned(fs.sb, fs.V()) && HoleFree(fs.V(), f.ip) && fs.dinodes == fs.inodes
    requires f.off < UINT && 0 < |src| <= CHUNKMAX
    modifies fs, f
    ensures r.Ret? && r.n != -1 ==>
      && IsWrite(fs.sb, w) && w.before == old(fs.V()) && w.after == fs.V() && fs.dinodes == fs.inodes
      && w.i == f.ip && w.src == src && w.off == old(f.off) && fs.ops == old(fs.ops) + [w.logged]
  {
    hide Owned, HoleFree, Framed, WroteFile, Grown;
    FileSize(fs.V(), f.ip);
    r := fs.WriteOp(f, src);
    w := Write(f.ip, src, old(f.off), old(fs.V()), fs.V(), if r.Ret? then fs.ops[|old(fs.ops)|] else {});
  }

  /** Block b was free before the write and is in use after it. */
  predicate Fresh(w: Write, b: nat) {
    b < |w.before.bits| && b < |w.after.bits| && !w.before.bits[b] && w.after.bits[b]
  }

  /** The blocks a write may change: those of its file, and those it takes. */
  ghost predicate InFoot(w: Write, b: nat) {
    NamedBy(w.after, w.i, b) || Fresh(w, b)
  }

  /** The volume v shows the file as the write found it, and the blocks it takes as free. */
  ghost predicate Shows(sb: Super, v: Vol, w: Write) {
    && WellSized(sb, v) && InodeOf(v, w.i) == InodeOf(w.before, w.i)
    && (forall b: nat :: NamedBy(w.before, w.i, b) && b < |v.blocks| && b < |w.before.blocks| ==>
          v.blocks[b] == w.before.blocks[b])
    && (forall b: nat :: Fresh(w, b) && b < |v.bits| ==> !v.bits[b])
  }

  /** The volume v after the write: its blocks, bits and inode are as in after. */
  ghost function Merge(v: Vol, w: Write): (r: Vol)
    requires |v.bits| == |v.blocks| == |w.after.blocks| == |w.after.bits| && w.i in w.after.inodes
    ensures |r.bits| == |v.bits| && |r.blocks| == |v.blocks|
  {
    Vol(seq(|v.bits|, b requires 0 <= b < |v.bits| => v.bits[b] || Fresh(w, b)),
        seq(|v.blocks|, b requires 0 <= b < |v.blocks| => if InFoot(w, b) then w.after.blocks[b] else v.blocks[b]),
        v.inodes[w.i := w.after.inodes[w.i]])
  }

  lemma MergeOk(sb: Super, v: Vol, w: Write)
    requires IsWrite(sb, w) && WellSized(sb, v)
    ensures |v.bits| == |v.blocks| == |w.after.blocks| == |w.after.bits|
    ensures w.i in w.after.inodes && w.i in w.before.inodes
  {
  }

  /** A block of the file after the write was its block before, or was free. */
  lemma FootIs(sb: Super, w: Write, b: nat)
    requires IsWrite(sb, w)
    ensures NamedBy(w.after, w.i, b) ==>
      (NamedBy(w.before, w.i, b) || Fresh(w, b)) && b < |w.after.blocks| && sb.IsData(b) && w.after.bits[b]
  {
    if NamedBy(w.after, w.i, b) {
      var p :| 0 <= p < NPOS && Name(w.after, w.i, p) == b;
      NameInRange(sb, w.after, w.i, p);
      if Name(w.before, w.i, p) == b {
        assert NamedBy(w.before, w.i, b);
      }
    }
  }

  /** The file has the same blocks in v as the write found. */
  lemma NamesSeen(sb: Super, v: Vol, w: Write, p: nat)
    requires IsWrite(sb, w) && Shows(sb, v, w) && p < NPOS
    ensures Name(v, w.i, p) == Name(w.before, w.i, p)
  {
    var ind := Name(w.before, w.i, NDIRECT);
    assert InodeOf(v, w.i) == Some(w.before.inodes[w.i]);
    if ind != 0 {
      NameInRange(sb, w.before, w.i, NDIRECT);
      assert NamedBy(w.before, w.i, ind);
    }
  }

  lemma NamedSeen(sb: Super, v: Vol, w: Write, b: nat)
    requires IsWrite(sb, w) && Shows(sb, v, w)
    ensures NamedBy(v, w.i, b) <==> NamedBy(w.before, w.i, b)
  {
    hide Name, IsWrite, Shows;
    forall p | 0 <= p < NPOS ensures Name(v, w.i, p) == Name(w.before, w.i, p) {
      NamesSeen(sb, v, w, p);
    }
  }

  /** A block of another file in v is none that the write may change. */
  lemma OthersApart(sb: Super, v: Vol, w: Write, j: nat, p: nat)
    requires IsWrite(sb, w) && Shows(sb, v, w) && Owned(sb, v) && j != w.i && p < NPOS && Name(v, j, p) != 0
    ensures Name(v, j, p) < |v.blocks| && !InFoot(w, Name(v, j, p))
  {
    hide Name, IsWrite;
    var b := Name(v, j, p);
    NameInRange(sb, v, j, p);
    FootIs(sb, w, b);
    NamedSeen(sb, v, w, b);
    NamedByOne(sb, v, w.i, j, p);
  }

  lemma NamedByOne(sb: Super, v: Vol, i: nat, j: nat, p: nat)
    requires Owned(sb, v) && i != j && p < NPOS && Name(v, j, p) != 0
    ensures !NamedBy(v, i, Name(v, j, p))
  {
    hide Name;
  }

  lemma MergeNames(sb: Super, v: Vol, w: Write, j: nat, p: nat)
    requires IsWrite(sb, w) && Shows(sb, v, w) && Owned(sb, v) && p < NPOS
    ensures |v.bits| == |v.blocks| == |w.after.blocks| == |w.after.bits| && w.i in w.after.inodes
    ensures Name(Merge(v, w), j, p) == if j == w.i then Name(w.after, w.i, p) else Name(v, j, p)
  {
    MergeOk(sb, v, w);
    var r := Merge(v, w);
    if j == w.i {
      var ind := Name(w.after, w.i, NDIRECT);
      if ind != 0 {
        NameInRange(sb, w.after, w.i, NDIRECT);
        assert NamedBy(w.after, w.i, ind);
        assert r.blocks[ind] == w.after.blocks[ind];
      }
    } else if j in v.inodes && v.inodes[j].addrs[NDIRECT] != 0 {
      assert Name(v, j, NDIRECT) == v.inodes[j].addrs[NDIRECT];
      OthersApart(sb, v, w, j, NDIRECT);
    }
  }

  // ---------------------------------------------------------------- the same write on another volume

  lemma MergeMarked(sb: Super, v: Vol, w: Write)
    requires IsWrite(sb, w) && Shows(sb, v, w) && Owned(sb, v)
    ensures |v.bits| == |v.blocks| == |w.after.blocks| == |w.after.bits| && w.i in w.after.inodes
    ensures WellSized(sb, Merge(v, w)) && NamesMarked(sb, Merge(v, w))
  {
    hide Name, IsWrite, Shows, InFoot;
    MergeOk(sb, v, w);
    var r := Merge(v, w);
    forall j, p | 0 <= p < NPOS && Name(r, j, p) != 0 ensures sb.IsData(Name(r, j, p)) && r.bits[Name(r, j, p)] {
      MergeNames(sb, v, w, j, p);
      var b := Name(r, j, p);
      if j == w.i {
        assert NamedBy(w.after, w.i, b);
        FootIs(sb, w, b);
        NamedSeen(sb, v, w, b);
        if NamedBy(v, w.i, b) {
          NamedIn(sb, v, w.i, b);
        }
      } else {
        NameInRange(sb, v, j, p);
      }
    }
  }

  lemma NamedIn(sb: Super, v: Vol, i: nat, b: nat)
    requires Owned(sb, v) && NamedBy(v, i, b)
    ensures b < |v.blocks| == |v.bits| && sb.IsData(b) && v.bits[b]
  {
    var p :| 0 <= p < NPOS && Name(v, i, p) == b;
    NameInRange(sb, v, i, p);
  }

  lemma MergeOnce(sb: Super, v: Vol, w: Write)
    requires IsWrite(sb, w) && Shows(sb, v, w) && Owned(sb, v)
    ensures |v.bits| == |v.blocks| == |w.after.blocks| == |w.after.bits| && w.i in w.after.inodes
    ensures NamedOnce(Merge(v, w))
  {
    hide Name, IsWrite, Shows, InFoot, Merge;
    MergeOk(sb, v, w);
    var r := Merge(v, w);
    forall j: nat, p: nat, k: nat, q: nat | p < NPOS && q < NPOS && Name(r, j, p) == Name(r, k, q) != 0
      ensures j == k && p == q
    {
      MergeNames(sb, v, w, j, p);
      MergeNames(sb, v, w, k, q);
      if j == w.i && k == w.i {
        AfterOnce(sb, w, p, q);
      } else if j != w.i && k != w.i {
        assert Name(v, j, p) == Name(v, k, q);
      } else {
        MixedOnce(sb, v, w, if j == w.i then k else j, if j == w.i then q else p, if j == w.i then p else q);
      }
    }
  }

  lemma AfterOnce(sb: Super, w: Write, p: nat, q: nat)
    requires IsWrite(sb, w) && p < NPOS && q < NPOS && Name(w.after, w.i, p) == Name(w.after, w.i, q) != 0
    ensures p == q
  {
    hide Name;
  }

  lemma MixedOnce(sb: Super, v: Vol, w: Write, j: nat, p: nat, q: nat)
    requires IsWrite(sb, w) && Shows(sb, v, w) && Owned(sb, v) && j != w.i && p < NPOS && q < NPOS && Name(v, j, p) != 0
    ensures Name(v, j, p) != Name(w.after, w.i, q)
  {
    OthersApart(sb, v, w, j, p);
  }

  lemma MergeOwned(sb: Super, v: Vol, w: Write)
    requires IsWrite(sb, w) && Shows(sb, v, w) && Owned(sb, v)
    ensures |v.bits| == |v.blocks| == |w.after.blocks| == |w.after.bits| && w.i in w.after.inodes
    ensures Owned(sb, Merge(v, w))
  {
    hide Name, IsWrite, Shows, Merge, NamedOnce, NamesMarked;
    MergeMarked(sb, v, w);
    MergeOnce(sb, v, w);
  }

  lemma MergeOthers(sb: Super, v: Vol, w: Write)
    requires IsWrite(sb, w) && Shows(sb, v, w) && Owned(sb, v)
    ensures |v.bits| == |v.blocks| == |w.after.blocks| == |w.after.bits| && w.i in w.after.inodes
    ensures OthersSame(v, Merge(v, w), w.i)
  {
    MergeOk(sb, v, w);
    assert InodeOf(v, w.i).Some?;
    hide Name, IsWrite, Shows, InFoot;
    var r := Merge(v, w);
    forall j, p | j != w.i && 0 <= p < NPOS
      ensures Name(r, j, p) == Name(v, j, p)
      ensures 0 < Name(v, j, p) < |v.blocks| ==> r.blocks[Name(v, j, p)] == v.blocks[Name(v, j, p)]
    {
      MergeNames(sb, v, w, j, p);
      if Name(v, j, p) != 0 {
        OthersApart(sb, v, w, j, p);
      }
    }
    assert r.inodes.Keys == v.inodes.Keys;
  }

  /** The file in v is the file the write found. */
  lemma SeenContents(sb: Super, v: Vol, w: Write)
    requires IsWrite(sb, w) && Shows(sb, v, w) && Owned(sb, v)
    ensures HoleFree(v, w.i) && SizeOk(w.before, w.i) && v.inodes[w.i] == w.before.inodes[w.i]
    ensures Contents(v, w.i) == Contents(w.before, w.i)
  {
    assert InodeOf(v, w.i) == Some(w.before.inodes[w.i]);
    hide Name;
    forall p | 0 <= p < NPOS ensures Name(v, w.i, p) == Name(w.before, w.i, p) {
      NamesSeen(sb, v, w, p);
    }
    forall o | 0 <= o < w.before.inodes[w.i].size ensures ByteAt(v, w.i, o) == ByteAt(w.before, w.i, o) {
      var b := Name(v, w.i, PosOf(o / BSIZE));
      assert b != 0 ==> NamedBy(w.before, w.i, b);
      if b != 0 {
        NameInRange(sb, v, w.i, PosOf(o / BSIZE));
      }
    }
  }

  /** The file in the merged volume is the file the write left. */
  lemma MergedContents(sb: Super, v: Vol, w: Write)
    requires IsWrite(sb, w) && Shows(sb, v, w) && Owned(sb, v)
    ensures |v.bits| == |v.blocks| == |w.after.blocks| == |w.after.bits| && w.i in w.after.inodes
    ensures HoleFree(Merge(v, w), w.i) && SizeOk(w.after, w.i)
    ensures Contents(Merge(v, w), w.i) == Contents(w.after, w.i)
  {
    MergeOk(sb, v, w);
    hide Name;
    var r := Merge(v, w);
    forall p | 0 <= p < NPOS ensures Name(r, w.i, p) == Name(w.after, w.i, p) {
      MergeNames(sb, v, w, w.i, p);
    }
    forall o | 0 <= o < w.after.inodes[w.i].size ensures ByteAt(r, w.i, o) == ByteAt(w.after, w.i, o) {
      var b := Name(w.after, w.i, PosOf(o / BSIZE));
      if b != 0 {
        NameInRange(sb, w.after, w.i, PosOf(o / BSIZE));
        assert NamedBy(w.after, w.i, b);
      }
    }
  }

  /** A write is the same write on any volume that shows its file and the blocks it takes. */
  lemma WriteMoves(sb: Super, v: Vol, w: Write)
    requires IsWrite(sb, w) && Shows(sb, v, w) && Owned(sb, v)
    ensures |v.bits| == |v.blocks| == |w.after.blocks| == |w.after.bits| && w.i in w.after.inodes
    ensures HoleFree(v, w.i) && WroteFile(sb, v, Merge(v, w), w.i, w.src, w.off)
  {
    hide Name, Shows, Merge, OthersSame, Grown, Framed, Owned, Contents;
    MergeOwned(sb, v, w);
    MergeOthers(sb, v, w);
    SeenContents(sb, v, w);
    MergedContents(sb, v, w);
  }

  // ---------------------------------------------------------------- writers at work

  /** The disk, and the writes of a run, by operation. */
  datatype Setup = Setup(g: LogDisk.Geometry, sb: Super, writes: map<nat, Write>)

  ghost predicate Sound(x: Setup) {
    x.g.Valid() && forall op :: op in x.writes ==> IsWrite(x.sb, x.writes[op])
  }

  ghost function Image(x: Setup, v: Vol): (h: map<nat, LogDisk.Block>) {
    DiskLayout.Image(x.g, x.sb, v)
  }

  /** The volume after the writes ops, one after another. */
  ghost function After(x: Setup, v: Vol, ops: seq<nat>): (u: Vol) {
    if ops == [] then v
    else
      var u, op := After(x, v, ops[..|ops| - 1]), ops[|ops| - 1];
      if op in x.writes && Fits(u, x.writes[op]) then Merge(u, x.writes[op]) else u
  }

  ghost predicate Fits(v: Vol, w: Write) {
    |v.bits| == |v.blocks| == |w.after.blocks| == |w.after.bits| && w.i in w.after.inodes
  }

  /** Each of ops writes its file on the volume that the ones before it left. */
  ghost predicate Serial(x: Setup, v: Vol, ops: seq<nat>) {
    ops == [] ||
    var rest, op := ops[..|ops| - 1], ops[|ops| - 1];
    && Serial(x, v, rest) && op in x.writes
    && var w := x.writes[op];
       HoleFree(After(x, v, rest), w.i) && WroteFile(x.sb, After(x, v, rest), After(x, v, ops), w.i, w.src, w.off)
  }

  /** Different files, and no block taken by both. */
  ghost predicate Apart(w: Write, z: Write) {
    w.i != z.i && forall b: nat :: !(Fresh(w, b) && Fresh(z, b))
  }

  /**
   The volume as the buffer cache shows it, the writes under way, and those that have finished:
   committed ones, and those of the current group.
   */
  datatype Mix = Mix(live: Vol, busy: set<nat>, kept: seq<nat>, done: seq<nat>)

  ghost predicate BusyBit(x: Setup, busy: set<nat>, b: nat) {
    exists q :: q in busy && q in x.writes && Fresh(x.writes[q], b)
  }

  ghost predicate BusyBlock(x: Setup, busy: set<nat>, b: nat) {
    exists q :: q in busy && q in x.writes && InFoot(x.writes[q], b)
  }

  ghost predicate BusyFile(x: Setup, busy: set<nat>, j: nat) {
    exists q :: q in busy && q in x.writes && x.writes[q].i == j
  }

  /** live is base but for what the writes under way may change. */
  ghost predicate NearBase(x: Setup, base: Vol, live: Vol, busy: set<nat>) {
    && WellSized(x.sb, live) && WellSized(x.sb, base)
    && (forall b :: 0 <= b < x.sb.size && live.bits[b] != base.bits[b] ==> BusyBit(x, busy, b))
    && (forall b :: 0 <= b < x.sb.size && live.blocks[b] != base.blocks[b] ==> BusyBlock(x, busy, b))
    && (forall j: nat :: InodeOf(live, j) != InodeOf(base, j) ==> BusyFile(x, busy, j))
  }

  /** The writes under way are apart, and base shows each of them its file and the blocks it takes. */
  ghost predicate BusyOk(x: Setup, base: Vol, busy: set<nat>) {
    && Owned(x.sb, base)
    && (forall q :: q in busy ==> q in x.writes && Shows(x.sb, base, x.writes[q]))
    && (forall q, r :: q in busy && r in busy && q != r ==> Apart(x.writes[q], x.writes[r]))
  }

  /** A write may start: apart from those under way, and seeing its file and the blocks it takes. */
  ghost predicate Begins(x: Setup, m: Mix, op: nat)
    requires op in x.writes
  {
    && (forall q :: q in m.busy && q in x.writes ==> Apart(x.writes[op], x.writes[q]))
    && Shows(x.sb, m.live, x.writes[op])
  }

  /** live becomes u by a change that write w makes in block n. */
  ghost predicate Changes(sb: Super, live: Vol, u: Vol, w: Write, n: nat) {
    && |u.bits| == |live.bits| && |u.blocks| == |live.blocks|
    && (forall b :: 0 <= b < |live.bits| && u.bits[b] != live.bits[b] ==> Fresh(w, b) && BBlock(sb, b) == n)
    && (forall b :: 0 <= b < |live.blocks| && u.blocks[b] != live.blocks[b] ==> InFoot(w, b) && b == n)
    && (forall j: nat :: InodeOf(u, j) != InodeOf(live, j) ==> j == w.i && IBlock(sb, j) == n)
  }

  /** live holds all that write w leaves. */
  ghost predicate Reached(live: Vol, w: Write) {
    && InodeOf(live, w.i) == InodeOf(w.after, w.i)
    && (forall b: nat :: Fresh(w, b) && b < |live.bits| ==> live.bits[b])
    && (forall b: nat :: InFoot(w, b) && b < |live.blocks| && b < |w.after.blocks| ==>
          live.blocks[b] == w.after.blocks[b])
  }

  lemma SoundOne(x: Setup, op: nat)
    requires Sound(x) && op in x.writes
    ensures IsWrite(x.sb, x.writes[op]) && Owned(x.sb, x.writes[op].before)
    ensures x.writes[op].i in x.writes[op].before.inodes
  {
    hide Owned, Grown, Framed, WroteFile;
  }

  /** The inode of a starting write's file is in base as it found it. */
  lemma SlotsSeen(x: Setup, base: Vol, m: Mix, op: nat)
    requires NearBase(x, base, m.live, m.busy) && op in x.writes && Begins(x, m, op)
    ensures InodeOf(base, x.writes[op].i) == InodeOf(x.writes[op].before, x.writes[op].i)
  {
    hide InFoot, Fresh, NamedBy;
    assert !BusyFile(x, m.busy, x.writes[op].i);
  }

  /** A block of the starting write's file is none that the others may change. */
  lemma NotBusy(x: Setup, base: Vol, m: Mix, op: nat, p: nat)
    requires Sound(x) && BusyOk(x, base, m.busy) && op in x.writes && Begins(x, m, op) && p < NPOS
    requires Name(base, x.writes[op].i, p) != 0
    ensures Name(base, x.writes[op].i, p) < |base.blocks| && !BusyBlock(x, m.busy, Name(base, x.writes[op].i, p))
  {
    hide Name, IsWrite, Shows, Owned;
    var i := x.writes[op].i;
    NameInRange(x.sb, base, i, p);
    forall q | q in m.busy && q in x.writes ensures !InFoot(x.writes[q], Name(base, i, p)) {
      OthersApart(x.sb, base, x.writes[q], i, p);
    }
  }

  /** A block that the others do not change is in base as live shows it. */
  lemma BlockSeen(x: Setup, base: Vol, m: Mix, op: nat, b: nat)
    requires NearBase(x, base, m.live, m.busy) && op in x.writes && Begins(x, m, op) && !BusyBlock(x, m.busy, b)
    requires NamedBy(x.writes[op].before, x.writes[op].i, b) && b < |base.blocks| && b < |x.writes[op].before.blocks|
    ensures base.blocks[b] == x.writes[op].before.blocks[b]
  {
    hide InFoot, Fresh, NamedBy, BusyBlock;
  }

  lemma NamesBegun(x: Setup, base: Vol, m: Mix, op: nat, p: nat)
    requires Sound(x) && BusyOk(x, base, m.busy) && NearBase(x, base, m.live, m.busy)
    requires op in x.writes && Begins(x, m, op)
    requires p < NPOS
    ensures Name(base, x.writes[op].i, p) == Name(x.writes[op].before, x.writes[op].i, p)
  {
    hide Sound, BusyOk, NearBase, Begins, Owned, IsWrite, BusyBlock;
    var w := x.writes[op];
    SoundOne(x, op);
    SlotsSeen(x, base, m, op);
    var ind := w.before.inodes[w.i].addrs[NDIRECT];
    if ind != 0 {
      assert Name(base, w.i, NDIRECT) == ind == Name(w.before, w.i, NDIRECT);
      NotBusy(x, base, m, op, NDIRECT);
      NameInRange(x.sb, w.before, w.i, NDIRECT);
      assert NamedBy(w.before, w.i, ind);
      BlockSeen(x, base, m, op, ind);
    }
  }

  /** Base, too, shows a starting write its file and the blocks it takes. */
  lemma BeginsShows(x: Setup, base: Vol, m: Mix, op: nat)
    requires Sound(x) && BusyOk(x, base, m.busy) && NearBase(x, base, m.live, m.busy)
    requires op in x.writes && Begins(x, m, op)
    ensures Shows(x.sb, base, x.writes[op])
  {
    hide Name, Sound, BusyOk, NearBase, Begins, Fresh, InodeOf, BusyBlock;
    var w := x.writes[op];
    SlotsSeen(x, base, m, op);
    NearSized(x, base, m.live, m.busy);
    forall b: nat | NamedBy(w.before, w.i, b) && b < |base.blocks| && b < |w.before.blocks|
      ensures base.blocks[b] == w.before.blocks[b]
    {
      var p :| 0 <= p < NPOS && Name(w.before, w.i, p) == b;
      NamesBegun(x, base, m, op, p);
      NotBusy(x, base, m, op, p);
      BlockSeen(x, base, m, op, b);
    }
    forall b: nat | Fresh(w, b) && b < |base.bits| ensures !base.bits[b] {
      FreshClear(x, base, m, op, b);
    }
  }

  lemma NearSized(x: Setup, base: Vol, live: Vol, busy: set<nat>)
    requires NearBase(x, base, live, busy)
    ensures WellSized(x.sb, base) && WellSized(x.sb, live)
  {
  }

  lemma FreshClear(x: Setup, base: Vol, m: Mix, op: nat, b: nat)
    requires NearBase(x, base, m.live, m.busy) && op in x.writes && Begins(x, m, op)
    requires Fresh(x.writes[op], b) && b < |base.bits|
    ensures !base.bits[b]
  {
    hide InFoot, NamedBy;
    assert !BusyBit(x, m.busy, b);
  }

  lemma BeginsOk(x: Setup, base: Vol, m: Mix, op: nat)
    requires Sound(x) && BusyOk(x, base, m.busy) && NearBase(x, base, m.live, m.busy) && op in x.writes
    requires op in m.busy || Begins(x, m, op)
    ensures BusyOk(x, base, m.busy + {op})
  {
    hide Shows, Fresh, Owned, Sound, NearBase;
    if op !in m.busy {
      BeginsShows(x, base, m, op);
    } else {
      assert m.busy + {op} == m.busy;
    }
  }

  lemma ChangeNear(x: Setup, base: Vol, m: Mix, u: Vol, op: nat, n: nat)
    requires NearBase(x, base, m.live, m.busy) && op in x.writes && Changes(x.sb, m.live, u, x.writes[op], n)
    ensures NearBase(x, base, u, m.busy + {op})
  {
    hide InFoot, Fresh, BusyBit, BusyBlock, BusyFile, InodeOf, BBlock, IBlock;
    BusyMore(x, m.busy, op);
  }

  lemma ChangeFramed(sb: Super, live: Vol, u: Vol, w: Write, n: nat)
    requires Changes(sb, live, u, w, n)
    ensures Framed(sb, live, u, {n})
  {
    hide InFoot, Fresh, InodeOf, BBlock, IBlock;
  }

  lemma BusyMore(x: Setup, busy: set<nat>, op: nat)
    requires op in x.writes
    ensures forall b: nat :: BusyBit(x, busy, b) || Fresh(x.writes[op], b) ==> BusyBit(x, busy + {op}, b)
    ensures forall b: nat :: BusyBlock(x, busy, b) || InFoot(x.writes[op], b) ==> BusyBlock(x, busy + {op}, b)
    ensures forall j: nat :: BusyFile(x, busy, j) || x.writes[op].i == j ==> BusyFile(x, busy + {op}, j)
  {
  }

  // ---------------------------------------------------------------- a write finishes

  /** Another write sees its file and the blocks it takes as before. */
  lemma ShowsStill(sb: Super, base: Vol, w: Write, z: Write)
    requires IsWrite(sb, w) && IsWrite(sb, z) && Apart(w, z)
    requires Owned(sb, base) && Shows(sb, base, w) && Shows(sb, base, z)
    ensures Fits(base, w) && Shows(sb, Merge(base, w), z)
  {
    MergeOk(sb, base, w);
    hide Name, IsWrite, InFoot;
    var r := Merge(base, w);
    forall b: nat | NamedBy(z.before, z.i, b) && b < |r.blocks| && b < |z.before.blocks|
      ensures r.blocks[b] == z.before.blocks[b]
    {
      var p :| 0 <= p < NPOS && Name(z.before, z.i, p) == b;
      NamesSeen(sb, base, z, p);
      OthersApart(sb, base, w, z.i, p);
    }
  }

  lemma FinishOk(x: Setup, base: Vol, busy: set<nat>, op: nat)
    requires Sound(x) && BusyOk(x, base, busy) && op in busy
    ensures Fits(base, x.writes[op]) && BusyOk(x, Merge(base, x.writes[op]), busy - {op})
  {
    hide Shows, Owned, IsWrite, Merge, Fits, Apart;
    var w := x.writes[op];
    SoundOne(x, op);
    MergeFits(x.sb, base, w);
    MergeOwned(x.sb, base, w);
    forall q | q in busy - {op} ensures q in x.writes && Shows(x.sb, Merge(base, w), x.writes[q]) {
      SoundOne(x, q);
      ShowsStill(x.sb, base, w, x.writes[q]);
    }
  }

  lemma MergeFits(sb: Super, v: Vol, w: Write)
    requires IsWrite(sb, w) && Shows(sb, v, w)
    ensures Fits(v, w)
  {
    MergeOk(sb, v, w);
  }

  lemma BusyLess(x: Setup, busy: set<nat>, op: nat)
    requires op in x.writes
    ensures forall b: nat :: BusyBit(x, busy, b) && !Fresh(x.writes[op], b) ==> BusyBit(x, busy - {op}, b)
    ensures forall b: nat :: BusyBlock(x, busy, b) && !InFoot(x.writes[op], b) ==> BusyBlock(x, busy - {op}, b)
    ensures forall j: nat :: BusyFile(x, busy, j) && x.writes[op].i != j ==> BusyFile(x, busy - {op}, j)
  {
    hide InFoot, Fresh;
    forall b: nat | BusyBit(x, busy, b) && !Fresh(x.writes[op], b) ensures BusyBit(x, busy - {op}, b) {
      var q :| q in busy && q in x.writes && Fresh(x.writes[q], b);
      assert q in busy - {op};
    }
    forall b: nat | BusyBlock(x, busy, b) && !InFoot(x.writes[op], b) ensures BusyBlock(x, busy - {op}, b) {
      var q :| q in busy && q in x.writes && InFoot(x.writes[q], b);
      assert q in busy - {op};
    }
    forall j: nat | BusyFile(x, busy, j) && x.writes[op].i != j ensures BusyFile(x, busy - {op}, j) {
      var q :| q in busy && q in x.writes && x.writes[q].i == j;
      assert q in busy - {op};
    }
  }

  lemma FinishNear(x: Setup, base: Vol, live: Vol, busy: set<nat>, op: nat)
    requires NearBase(x, base, live, busy) && op in x.writes && Reached(live, x.writes[op]) && Fits(base, x.writes[op])
    ensures NearBase(x, Merge(base, x.writes[op]), live, busy - {op})
  {
    hide InFoot, Fresh, BusyBit, BusyBlock, BusyFile;
    BusyLess(x, busy, op);
    var w, r := x.writes[op], Merge(base, x.writes[op]);
    forall j: nat | InodeOf(live, j) != InodeOf(r, j) ensures BusyFile(x, busy - {op}, j) {
      assert j == w.i ==> InodeOf(r, j) == InodeOf(w.after, j);
      assert j != w.i ==> InodeOf(r, j) == InodeOf(base, j);
    }
  }

  /** With no write under way live is base. */
  lemma NoneBusy(x: Setup, base: Vol, live: Vol)
    requires NearBase(x, base, live, {})
    ensures live == base
  {
    hide InFoot, Fresh;
    assert forall b: nat :: !BusyBit(x, {}, b) && !BusyBlock(x, {}, b) && !BusyFile(x, {}, b);
    assert live.bits == base.bits && live.blocks == base.blocks;
    forall j: nat
      ensures (j in live.inodes <==> j in base.inodes) && (j in base.inodes ==> live.inodes[j] == base.inodes[j])
    {
      assert InodeOf(live, j) == InodeOf(base, j);
    }
    assert live.inodes == base.inodes;
  }

  lemma AfterSnoc(x: Setup, v: Vol, ops: seq<nat>, op: nat)
    requires op in x.writes && Fits(After(x, v, ops), x.writes[op])
    ensures After(x, v, ops + [op]) == Merge(After(x, v, ops), x.writes[op])
  {
    assert (ops + [op])[..|ops|] == ops;
  }

  lemma SerialSnoc(x: Setup, v: Vol, ops: seq<nat>, op: nat)
    requires Sound(x) && Serial(x, v, ops) && op in x.writes && Owned(x.sb, After(x, v, ops))
    requires Shows(x.sb, After(x, v, ops), x.writes[op])
    ensures Serial(x, v, ops + [op]) && Fits(After(x, v, ops), x.writes[op])
  {
    hide Shows, Owned, IsWrite, Merge, HoleFree, WroteFile, After;
    SoundOne(x, op);
    WriteMoves(x.sb, After(x, v, ops), x.writes[op]);
    AfterSnoc(x, v, ops, op);
    assert (ops + [op])[..|ops|] == ops;
  }

  // ---------------------------------------------------------------- runs

  /** An event of the log, with the volume the buffer cache then shows; or a write has done its last change. */
  datatype Event = Log(e: LogRuns.Event, live: Vol) | Finish(op: nat)

  ghost predicate Can(x: Setup, s: LogRuns.State, m: Mix, ev: Event) {
    match ev
    case Finish(op) => s.phase.Running? && op in m.busy && op in x.writes && Reached(m.live, x.writes[op])
    case Log(e, u) => LogRuns.Enabled(x.g, s, e) && WritersDo(x, m, e, u)
  }

  /** A write changes one block at a time, and logs it; an operation ends when it has finished. */
  ghost predicate WritersDo(x: Setup, m: Mix, e: LogRuns.Event, u: Vol) {
    match e
    case LogWrite(op, bno, data) =>
      && op in x.writes && bno in x.writes[op].logged && (op in m.busy || Begins(x, m, op))
      && Changes(x.sb, m.live, u, x.writes[op], bno) && data == DiskLayout.ImageAt(x.sb, u, bno)
    case EndOp(op) => op !in m.busy
    case _ => true
  }

  ghost function NextLog(x: Setup, s: LogRuns.State, m: Mix, ev: Event): (t: LogRuns.State)
    requires x.g.Valid() && Can(x, s, m, ev)
  {
    if ev.Finish? then s else LogRuns.Do(x.g, s, ev.e)
  }

  /** The header write of a commit. */
  ghost predicate Commits(s: LogRuns.State, e: LogRuns.Event) {
    e.DiskWrite? && s.phase.Committing? && s.phase.done == |s.blocks|
  }

  ghost function NextMix(x: Setup, v: Vol, s: LogRuns.State, m: Mix, ev: Event): (n: Mix) {
    if ev.Finish? then m.(busy := m.busy - {ev.op}, done := m.done + [ev.op])
    else if ev.e.LogWrite? then m.(live := ev.live, busy := m.busy + {ev.e.op})
    else if ev.e.Crash? then Mix(After(x, v, m.kept), {}, m.kept, [])
    else if Commits(s, ev.e) then m.(kept := m.kept + m.done, done := [])
    else m
  }

  /** s and m are reached by events from a disk that holds v. */
  ghost predicate MixedRun(x: Setup, v: Vol, d: LogDisk.Disk, evs: seq<Event>, s: LogRuns.State, m: Mix)
    requires x.g.Valid()
  {
    if evs == [] then s == LogRuns.Boot(d) && m == Mix(v, {}, [], [])
    else
      var last := |evs| - 1;
      exists t, n :: MixedRun(x, v, d, evs[..last], t, n) && Can(x, t, n, evs[last])
                     && s == NextLog(x, t, n, evs[last]) && m == NextMix(x, v, t, n, evs[last])
  }

  // ---------------------------------------------------------------- what every step keeps

  /** The current group: its writes turn the committed volume into the live one. */
  ghost predicate Waiting(x: Setup, v: Vol, s: LogRuns.State, m: Mix) {
    && Serial(x, v, m.kept + m.done) && BusyOk(x, After(x, v, m.kept + m.done), m.busy)
    && NearBase(x, After(x, v, m.kept + m.done), m.live, m.busy)
    && LogRuns.Replay(Image(x, After(x, v, m.kept)), s.group.writes) == Image(x, m.live)
    && m.busy <= s.open.Keys && (s.group.writes == [] ==> m.busy == {} && m.done == [])
    && (forall k :: 0 <= k < |s.group.writes| ==> s.group.writes[k].op in m.busy || s.group.writes[k].op in m.done)
  }

  ghost predicate Kept(x: Setup, h: map<nat, LogDisk.Block>, v: Vol, s: LogRuns.State, m: Mix) {
    && Serial(x, v, m.kept) && Owned(x.sb, After(x, v, m.kept))
    && LogRuns.ReplayGroups(h, s.committed) == Image(x, After(x, v, m.kept))
    && CrashedFiles.WritersIn(s.committed, m.kept)
  }

  ghost predicate MixInv(x: Setup, h: map<nat, LogDisk.Block>, v: Vol, s: LogRuns.State, m: Mix) {
    && Kept(x, h, v, s, m)
    && (LogRuns.Uncommitted(s) && !s.phase.Panicked? ==> Waiting(x, v, s, m))
    && (!LogRuns.Uncommitted(s) ==> m.busy == {} && m.done == [] && m.live == After(x, v, m.kept))
  }

  /** Nothing waits. */
  lemma NothingWaits(x: Setup, v: Vol, s: LogRuns.State, m: Mix)
    requires s.group.writes == [] && m.busy == {} && m.done == [] && m.live == After(x, v, m.kept)
    requires Serial(x, v, m.kept) && Owned(x.sb, After(x, v, m.kept))
    ensures Waiting(x, v, s, m)
  {
    hide After, Serial, Image, Owned;
    assert m.kept + m.done == m.kept;
    NearSelf(x, m.live);
    CrashedFiles.ReplayNone(Image(x, m.live));
  }

  lemma NearSelf(x: Setup, v: Vol)
    requires Owned(x.sb, v)
    ensures NearBase(x, v, v, {}) && BusyOk(x, v, {})
  {
  }

  /** One block of the live volume changes, and is logged. */
  lemma ImageChanges(x: Setup, live: Vol, u: Vol, n: nat)
    requires Framed(x.sb, live, u, {n}) && x.g.IsHome(n)
    ensures Image(x, live)[n := DiskLayout.ImageAt(x.sb, u, n)] == Image(x, u)
  {
    hide DiskLayout.HeldAt, DiskLayout.Layout, Framed;
    forall k: nat | x.g.IsHome(k) && k != n
      ensures DiskLayout.ImageAt(x.sb, u, k) == DiskLayout.ImageAt(x.sb, live, k)
    {
      DiskLayout.FramedHeld(x.sb, live, u, {n}, k);
    }
  }

  lemma LogWriteWaits(x: Setup, v: Vol, s: LogRuns.State, t: LogRuns.State, m: Mix, e: LogRuns.Event, u: Vol)
    requires Sound(x) && Waiting(x, v, s, m) && e.LogWrite? && WritersDo(x, m, e, u) && x.g.IsHome(e.bno)
    requires t.group.writes == s.group.writes + [LogRuns.OpWrite(e.op, e.bno, e.data)]
    requires e.op in t.open && s.open.Keys <= t.open.Keys
    ensures Waiting(x, v, t, m.(live := u, busy := m.busy + {e.op}))
  {
    hide After, Serial, Image, Owned, BusyOk, NearBase, Changes, Begins, Sound, Framed;
    hide LogRuns.Replay, DiskLayout.ImageAt;
    var base, w := After(x, v, m.kept + m.done), x.writes[e.op];
    BeginsOk(x, base, m, e.op);
    ChangeNear(x, base, m, u, e.op, e.bno);
    ChangeFramed(x.sb, m.live, u, w, e.bno);
    ImageChanges(x, m.live, u, e.bno);
    LogRuns.ReplaySnoc(Image(x, After(x, v, m.kept)), s.group.writes, LogRuns.OpWrite(e.op, e.bno, e.data));
    forall k | 0 <= k < |t.group.writes|
      ensures t.group.writes[k].op in m.busy + {e.op} || t.group.writes[k].op in m.done
    {
      assert k < |s.group.writes| ==> t.group.writes[k] == s.group.writes[k];
    }
  }

  lemma BusyOne(x: Setup, base: Vol, busy: set<nat>, op: nat)
    requires BusyOk(x, base, busy) && op in busy
    ensures Owned(x.sb, base) && op in x.writes && Shows(x.sb, base, x.writes[op])
  {
  }

  lemma FinishWaits(x: Setup, v: Vol, s: LogRuns.State, m: Mix, op: nat)
    requires Sound(x) && Waiting(x, v, s, m) && op in m.busy && op in x.writes && Reached(m.live, x.writes[op])
    ensures Waiting(x, v, s, m.(busy := m.busy - {op}, done := m.done + [op]))
  {
    hide After, Serial, Image, NearBase, BusyOk, LogRuns.Replay, Merge, Fits, Owned, Shows, Reached, Sound;
    var base := After(x, v, m.kept + m.done);
    BusyOne(x, base, m.busy, op);
    assert m.kept + (m.done + [op]) == m.kept + m.done + [op];
    SerialSnoc(x, v, m.kept + m.done, op);
    AfterSnoc(x, v, m.kept + m.done, op);
    FinishOk(x, base, m.busy, op);
    FinishNear(x, base, m.live, m.busy, op);
    var n := m.(busy := m.busy - {op}, done := m.done + [op]);
    forall k | 0 <= k < |s.group.writes| ensures s.group.writes[k].op in n.busy || s.group.writes[k].op in n.done {
      assert n.done[|m.done|] == op;
    }
  }

  /** The group and what it waits for stay, and no writer has gone. */
  lemma SameWaits(x: Setup, v: Vol, s: LogRuns.State, t: LogRuns.State, m: Mix)
    requires Waiting(x, v, s, m) && t.group == s.group && m.busy <= t.open.Keys
    ensures Waiting(x, v, t, m)
  {
    hide After, Serial, Image, NearBase, BusyOk, LogRuns.Replay;
  }

  /** A log_write that the log takes. */
  lemma WriteStep(x: Setup, h: map<nat, LogDisk.Block>, v: Vol, s: LogRuns.State, m: Mix, e: LogRuns.Event, u: Vol)
    requires Sound(x) && MixInv(x, h, v, s, m) && e.LogWrite? && Can(x, s, m, Log(e, u)) && |s.blocks| < x.g.Capacity()
    ensures MixInv(x, h, v, NextLog(x, s, m, Log(e, u)), NextMix(x, v, s, m, Log(e, u)))
  {
    hide After, Waiting, WritersDo, IsWrite, Kept;
    LogWriteWaits(x, v, s, NextLog(x, s, m, Log(e, u)), m, e, u);
    KeptStays(x, h, v, s, m, NextLog(x, s, m, Log(e, u)), NextMix(x, v, s, m, Log(e, u)));
  }

  lemma KeptStays(x: Setup, h: map<nat, LogDisk.Block>, v: Vol, s: LogRuns.State, m: Mix, t: LogRuns.State, n: Mix)
    requires Kept(x, h, v, s, m) && t.committed == s.committed && n.kept == m.kept
    ensures Kept(x, h, v, t, n)
  {
  }

  lemma FinishStep(x: Setup, h: map<nat, LogDisk.Block>, v: Vol, s: LogRuns.State, m: Mix, op: nat)
    requires Sound(x) && MixInv(x, h, v, s, m) && Can(x, s, m, Finish(op))
    ensures MixInv(x, h, v, NextLog(x, s, m, Finish(op)), NextMix(x, v, s, m, Finish(op)))
  {
    hide After, Waiting, Sound, Kept, Reached;
    FinishWaits(x, v, s, m, op);
    KeptStays(x, h, v, s, m, s, NextMix(x, v, s, m, Finish(op)));
  }

  /** Events that neither write a block of the disk, nor return from a commit, nor add to the log. */
  lemma QuietStep(x: Setup, h: map<nat, LogDisk.Block>, v: Vol, s: LogRuns.State, m: Mix, e: LogRuns.Event, u: Vol)
    requires x.g.Valid() && MixInv(x, h, v, s, m) && Can(x, s, m, Log(e, u)) && !e.DiskWrite? && !e.CommitReturns?
    requires e.LogWrite? ==> |s.blocks| >= x.g.Capacity()
    ensures MixInv(x, h, v, NextLog(x, s, m, Log(e, u)), NextMix(x, v, s, m, Log(e, u)))
  {
    hide After, Waiting, Kept, Begins, Changes;
    var t, n := NextLog(x, s, m, Log(e, u)), NextMix(x, v, s, m, Log(e, u));
    CrashedFiles.QuietDo(x.g, s, e);
    KeptStays(x, h, v, s, m, t, n);
    if e.Crash? {
      KeptOwned(x, h, v, s, m);
      NothingWaits(x, v, t, n);
    } else if !t.phase.Panicked? {
      WaitersOpen(x, v, s, m);
      SameWaits(x, v, s, t, m);
    }
  }

  lemma KeptOwned(x: Setup, h: map<nat, LogDisk.Block>, v: Vol, s: LogRuns.State, m: Mix)
    requires Kept(x, h, v, s, m)
    ensures Serial(x, v, m.kept) && Owned(x.sb, After(x, v, m.kept))
  {
  }

  lemma WaitersOpen(x: Setup, v: Vol, s: LogRuns.State, m: Mix)
    requires Waiting(x, v, s, m)
    ensures m.busy <= s.open.Keys && (s.group.writes == [] ==> m.busy == {} && m.done == [])
  {
  }

  /** When no operation is open, the group makes the volume after the writes that finished. */
  lemma GroupIs(x: Setup, v: Vol, s: LogRuns.State, m: Mix)
    requires Waiting(x, v, s, m) && s.open == map[]
    ensures m.busy == {} && m.live == After(x, v, m.kept + m.done) && Serial(x, v, m.kept + m.done)
    ensures Owned(x.sb, m.live)
    ensures LogRuns.Replay(Image(x, After(x, v, m.kept)), s.group.writes) == Image(x, m.live)
    ensures forall k :: 0 <= k < |s.group.writes| ==> s.group.writes[k].op in m.done
  {
    hide After, Serial, Image, NearBase, LogRuns.Replay, Owned, Shows, Apart;
    assert m.busy == {};
    NoneBusy(x, After(x, v, m.kept + m.done), m.live);
  }

  lemma CommitStep(x: Setup, h: map<nat, LogDisk.Block>, v: Vol, s: LogRuns.State, m: Mix, u: Vol)
    requires MixInv(x, h, v, s, m) && LogRuns.Inv(x.g, h, s) && Can(x, s, m, Log(LogRuns.DiskWrite, u))
    requires Commits(s, LogRuns.DiskWrite)
    ensures x.g.Valid()
    ensures var ev := Log(LogRuns.DiskWrite, u); MixInv(x, h, v, NextLog(x, s, m, ev), NextMix(x, v, s, m, ev))
  {
    hide After, Serial, Image, Waiting, LogRuns.Replay, LogRuns.ReplayGroups, LogRuns.Inv, LogRuns.Do, Owned;
    hide CrashedFiles.WritersIn, LogRuns.Enabled;
    CrashedFiles.DiskDo(x.g, h, s);
    GroupIs(x, v, s, m);
    LogRuns.ReplayGroupsSnoc(h, s.committed, s.group);
    LogRuns.ReplayMerges(LogRuns.ReplayGroups(h, s.committed), s.group.writes);
    WritersMore(s.committed, s.group, m.kept, m.done);
  }

  lemma WritersMore(gs: seq<LogRuns.Group>, gr: LogRuns.Group, c: seq<nat>, p: seq<nat>)
    requires CrashedFiles.WritersIn(gs, c) && forall k :: 0 <= k < |gr.writes| ==> gr.writes[k].op in p
    ensures CrashedFiles.WritersIn(gs + [gr], c + p)
  {
  }

  /** A write of the disk other than the header of a commit. */
  lemma OtherDiskStep(x: Setup, h: map<nat, LogDisk.Block>, v: Vol, s: LogRuns.State, m: Mix, u: Vol)
    requires MixInv(x, h, v, s, m) && LogRuns.Inv(x.g, h, s) && Can(x, s, m, Log(LogRuns.DiskWrite, u))
    requires !Commits(s, LogRuns.DiskWrite)
    ensures x.g.Valid()
    ensures var ev := Log(LogRuns.DiskWrite, u); MixInv(x, h, v, NextLog(x, s, m, ev), NextMix(x, v, s, m, ev))
  {
    hide After, Waiting, Kept, LogRuns.Inv;
    CrashedFiles.DiskDo(x.g, h, s);
    var ev := Log(LogRuns.DiskWrite, u);
    var t := NextLog(x, s, m, ev);
    KeptStays(x, h, v, s, m, t, m);
    if LogRuns.Uncommitted(s) {
      WaitersOpen(x, v, s, m);
      SameWaits(x, v, s, t, m);
    }
  }

  /** A commit of some blocks returns only after its header is written. */
  lemma ReturnsCommitted(g: LogDisk.Geometry, h: map<nat, LogDisk.Block>, s: LogRuns.State)
    requires LogRuns.Inv(g, h, s) && LogRuns.Enabled(g, s, LogRuns.CommitReturns)
    ensures g.Valid() && s.open == map[] && !s.phase.Panicked?
    ensures var t := LogRuns.Do(g, s, LogRuns.CommitReturns);
      && t.group.writes == [] && t.phase.Running?
      && if LogRuns.Uncommitted(s) then s.group.writes == [] && t.committed == s.committed + [s.group]
         else t.committed == s.committed
  {
    hide LogRuns.SpaceInv, LogRuns.OwnerInv, LogRuns.OrderInv, LogDisk.Apply, LogRuns.Replay, LogRuns.ReplayGroups;
    if s.blocks == [] {
      LogRuns.GroupUpdates(g, s, s.phase.base);
      CrashedFiles.SomethingWritten(s.group.writes);
    }
  }

  lemma ReturnStep(x: Setup, h: map<nat, LogDisk.Block>, v: Vol, s: LogRuns.State, m: Mix, u: Vol)
    requires MixInv(x, h, v, s, m) && LogRuns.Inv(x.g, h, s) && Can(x, s, m, Log(LogRuns.CommitReturns, u))
    ensures x.g.Valid()
    ensures var ev := Log(LogRuns.CommitReturns, u); MixInv(x, h, v, NextLog(x, s, m, ev), NextMix(x, v, s, m, ev))
  {
    hide After, Serial, Image, Waiting, LogRuns.Replay, LogRuns.ReplayGroups, LogRuns.Inv, LogRuns.Do, Owned;
    hide CrashedFiles.WritersIn, LogRuns.Enabled;
    ReturnsCommitted(x.g, h, s);
    var t := LogRuns.Do(x.g, s, LogRuns.CommitReturns);
    if LogRuns.Uncommitted(s) {
      GroupIs(x, v, s, m);
      WaitersOpen(x, v, s, m);
      assert m.kept + m.done == m.kept;
      LogRuns.ReplayGroupsSnoc(h, s.committed, s.group);
      CrashedFiles.ReplayNone(map[]);
      WritersMore(s.committed, s.group, m.kept, []);
    }
    NothingWaits(x, v, t, m);
  }

  lemma Step(x: Setup, h: map<nat, LogDisk.Block>, v: Vol, s: LogRuns.State, m: Mix, ev: Event)
    requires Sound(x) && MixInv(x, h, v, s, m) && LogRuns.Inv(x.g, h, s) && Can(x, s, m, ev)
    ensures MixInv(x, h, v, NextLog(x, s, m, ev), NextMix(x, v, s, m, ev))
  {
    hide MixInv, LogRuns.Inv, NextLog, NextMix, Commits, WritersDo, LogRuns.Enabled, Reached;
    if ev.Finish? {
      FinishStep(x, h, v, s, m, ev.op);
    } else if ev.e.DiskWrite? {
      if Commits(s, ev.e) {
        CommitStep(x, h, v, s, m, ev.live);
      } else {
        OtherDiskStep(x, h, v, s, m, ev.live);
      }
    } else if ev.e.CommitReturns? {
      ReturnStep(x, h, v, s, m, ev.live);
    } else if ev.e.LogWrite? && |s.blocks| < x.g.Capacity() {
      WriteStep(x, h, v, s, m, ev.e, ev.live);
    } else {
      QuietStep(x, h, v, s, m, ev.e, ev.live);
    }
  }

  /** The events of the log among evs. */
  function LogEvents(evs: seq<Event>): (es: seq<LogRuns.Event>) {
    if evs == [] then []
    else LogEvents(evs[..|evs| - 1]) + if evs[|evs| - 1].Finish? then [] else [evs[|evs| - 1].e]
  }

  lemma {:induction false} Run(x: Setup, v: Vol, d: LogDisk.Disk, evs: seq<Event>, s: LogRuns.State, m: Mix)
    requires Sound(x) && LogDisk.GoodDisk(x.g, d) && d[x.g.start].w[0] == 0
    requires LogDisk.Home(x.g, d) == Image(x, v) && Owned(x.sb, v) && MixedRun(x, v, d, evs, s, m)
    ensures LogRuns.Reaches(x.g, LogRuns.Boot(d), LogEvents(evs), s) && MixInv(x, LogDisk.Home(x.g, d), v, s, m)
  {
    hide MixInv, LogRuns.Inv, NextMix, LogRuns.Do, WritersDo, LogRuns.Enabled, Reached, Image, Owned, LogDisk.Home;
    hide LogRuns.Reaches, IsWrite;
    var h := LogDisk.Home(x.g, d);
    if evs == [] {
      Booted(x, h, v, d);
      LogRuns.ReachesNone(x.g, s);
    } else {
      var ev := evs[|evs| - 1];
      var t, n :| MixedRun(x, v, d, evs[..|evs| - 1], t, n) && Can(x, t, n, ev)
                  && s == NextLog(x, t, n, ev) && m == NextMix(x, v, t, n, ev);
      Run(x, v, d, evs[..|evs| - 1], t, n);
      var es := LogEvents(evs[..|evs| - 1]);
      LogRuns.RunInv(x.g, d, es, t);
      Step(x, h, v, t, n, ev);
      if ev.Log? {
        LogRuns.ReachesMore(x.g, LogRuns.Boot(d), es, t, ev.e);
      } else {
        assert es + [] == es;
      }
    }
  }

  lemma Booted(x: Setup, h: map<nat, LogDisk.Block>, v: Vol, d: LogDisk.Disk)
    requires h == Image(x, v) && Owned(x.sb, v)
    ensures MixInv(x, h, v, LogRuns.Boot(d), Mix(v, {}, [], []))
  {
    hide Image, Owned, Waiting;
    NothingWaits(x, v, LogRuns.Boot(d), Mix(v, {}, [], []));
  }

  /**
   However processes that write different files mix their block writes, and whenever the machine
   crashes: the disk recovers to the volume after whole writes, one after another in the order in
   which they finished, among them every write in a group whose commit returned.
   */
  lemma RecoversWholeWrites(x: Setup, v: Vol, d: LogDisk.Disk, evs: seq<Event>, s: LogRuns.State, m: Mix)
    requires Sound(x) && LogDisk.GoodDisk(x.g, d) && d[x.g.start].w[0] == 0
    requires LogDisk.Home(x.g, d) == Image(x, v) && Owned(x.sb, v) && MixedRun(x, v, d, evs, s, m)
    ensures LogDisk.GoodDisk(x.g, s.disk) && LogDisk.Recovered(x.g, s.disk) == Image(x, After(x, v, m.kept))
    ensures Serial(x, v, m.kept) && Owned(x.sb, After(x, v, m.kept))
    ensures CrashedFiles.WritersIn(s.committed, m.kept)
    ensures forall id :: id in s.returned ==> LogRuns.Holds(s.committed, id)
  {
    hide MixedRun, LogRuns.Reaches, Image, After, Serial, Owned, LogDisk.Recovered;
    Run(x, v, d, evs, s, m);
    LogRuns.CrashSafety(x.g, d, LogEvents(evs), s);
  }

  /** Writes make no file and lose none, and keep sizes within bounds. */
  lemma {:induction false} SameNumbers(x: Setup, v: Vol, ops: seq<nat>, i: nat)
    requires Serial(x, v, ops)
    ensures After(x, v, ops).inodes.Keys == v.inodes.Keys && (SizeOk(v, i) ==> SizeOk(After(x, v, ops), i))
  {
    hide Merge, Owned, Contents, HoleFree;
    if ops != [] {
      SameNumbers(x, v, ops[..|ops| - 1], i);
    }
  }

  /** So the files on the recovered disk are those after these writes, however the disk is read. */
  lemma RecoversFiles(x: Setup, v: Vol, d: LogDisk.Disk, evs: seq<Event>, s: LogRuns.State, m: Mix, u: Vol, i: nat)
    requires Sound(x) && LogDisk.GoodDisk(x.g, d) && d[x.g.start].w[0] == 0
    requires LogDisk.Home(x.g, d) == Image(x, v) && Owned(x.sb, v) && MixedRun(x, v, d, evs, s, m)
    requires LogDisk.GoodDisk(x.g, s.disk) && LogDisk.Recovered(x.g, s.disk) == Image(x, u) && WellSized(x.sb, u)
    requires DiskLayout.LaidOut(x.g, x.sb, v) && SizeOk(v, i)
    ensures SizeOk(u, i) && SizeOk(After(x, v, m.kept), i) && Contents(u, i) == Contents(After(x, v, m.kept), i)
  {
    hide MixedRun, After, Sound, DiskLayout.Image, Owned, Serial, Contents;
    RecoversWholeWrites(x, v, d, evs, s, m);
    SameNumbers(x, v, m.kept, i);
    DiskLayout.SameFiles(x.g, x.sb, After(x, v, m.kept), u, i);
  }
}
