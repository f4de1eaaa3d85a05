/**
 The on-disk redo log: which block writes a commit and a recovery issue, in which
 order, and what the disk means if the machine stops after any number of them.
 */
module LogDisk {

  const MAXOPBLOCKS := 10
  const LOGSIZE := 3 * MAXOPBLOCKS
  const WORDS := 128  // BSIZE / sizeof(uint)

  /** A disk block, read as its 128 words. */
  datatype Words = Words(w: seq<int>)
  type Block = b: Words | |b.w| == WORDS witness Words(seq(WORDS, _ => 0))

  /** The disk, indexed by block number. */
  type Disk = seq<Block>

  /** Where the log lies (sb.logstart, sb.nlog) and how many blocks the disk has. */
  datatype Geometry = Geometry(start: nat, size: nat, total: nat) {
    ghost predicate Valid() {
      1 <= size && start + size <= total
    }

    /** The header and the log slots. */
    predicate InLog(b: int) {
      start <= b < start + size
    }

    /** A block of the file system proper. */
    predicate IsHome(b: int) {
      0 <= b < total && !InLog(b)
    }

    /** The most entries log_write lets a transaction have. */
    function Capacity(): (c: nat)
      requires Valid()
    {
      if LOGSIZE < size - 1 then LOGSIZE else size - 1
    }
  }

  /** One bwrite: an atomic write of a whole block. */
  datatype BlockWrite = BlockWrite(bno: nat, data: Block)

  /** The disk after the block writes ws, in order. */
  function Apply(d: Disk, ws: seq<BlockWrite>): (r: Disk)
    ensures |r| == |d|
  {
    if ws == [] then d
    else
      var r := Apply(d, ws[..|ws| - 1]);
      var w := ws[|ws| - 1];
      if w.bno < |r| then r[w.bno := w.data] else r
  }

  ghost predicate DistinctTargets(ws: seq<BlockWrite>) {
    forall i, j :: 0 <= i < j < |ws| ==> ws[i].bno != ws[j].bno
  }

  lemma {:induction false} ApplyFrame(d: Disk, ws: seq<BlockWrite>, b: nat)
    requires b < |d|
    requires forall i :: 0 <= i < |ws| ==> ws[i].bno != b
    ensures Apply(d, ws)[b] == d[b]
  {
    if ws != [] {
      ApplyFrame(d, ws[..|ws| - 1], b);
    }
  }

  lemma {:induction false} ApplyHit(d: Disk, ws: seq<BlockWrite>, k: nat)
    requires DistinctTargets(ws)
    requires k < |ws| && ws[k].bno < |d|
    ensures Apply(d, ws)[ws[k].bno] == ws[k].data
  {
    if k < |ws| - 1 {
      ApplyHit(d, ws[..|ws| - 1], k);
    }
  }

  lemma {:induction false} ApplyConcat(d: Disk, ws: seq<BlockWrite>, vs: seq<BlockWrite>)
    ensures Apply(d, ws + vs) == Apply(Apply(d, ws), vs)
  {
    if vs == [] {
      assert ws + vs == ws;
    } else {
      ApplyConcat(d, ws, vs[..|vs| - 1]);
      assert (ws + vs)[..|ws + vs| - 1] == ws + vs[..|vs| - 1];
    }
  }

  // ---------------------------------------------------------------- header block

  /** What write_head stores: the count and the entries, over the block's old words. */
  function EncodeHead(was: Block, blocks: seq<nat>): (h: Block)
    requires |blocks| <= LOGSIZE
    ensures h.w[0] == |blocks|
    ensures forall i :: 1 <= i <= |blocks| ==> h.w[i] == blocks[i - 1]
    ensures forall i :: |blocks| < i < WORDS ==> h.w[i] == was.w[i]
  {
    Words(seq(WORDS, i requires 0 <= i < WORDS =>
      if i == 0 then |blocks| else if i <= |blocks| then blocks[i - 1] else was.w[i]))
  }

  /** The header block names a transaction that can be replayed. */
  predicate GoodHead(g: Geometry, h: Block)
    requires g.Valid()
  {
    && 0 <= h.w[0] <= g.Capacity()
    && (forall i :: 1 <= i <= h.w[0] ==> g.IsHome(h.w[i]))
    && (forall i, j :: 1 <= i < j <= h.w[0] ==> h.w[i] != h.w[j])
  }

  ghost predicate GoodDisk(g: Geometry, d: Disk) {
    g.Valid() && |d| == g.total && GoodHead(g, d[g.start])
  }

  /** log.lh.block[0..n) as read_head loads it. */
  function HeadBlocks(g: Geometry, d: Disk): (bs: seq<nat>)
    requires GoodDisk(g, d)
    ensures |bs| == d[g.start].w[0]
    ensures forall i :: 0 <= i < |bs| ==> bs[i] == d[g.start].w[1 + i]
  {
    var h := d[g.start];
    seq(h.w[0], i requires 0 <= i < h.w[0] => h.w[1 + i])
  }

  /** Distinct home blocks, few enough for the log: an in-memory header that may be replayed. */
  ghost predicate GoodBlocks(g: Geometry, blocks: seq<nat>) {
    && g.Valid() && |blocks| <= g.Capacity()
    && (forall i :: 0 <= i < |blocks| ==> g.IsHome(blocks[i]))
    && (forall i, j :: 0 <= i < j < |blocks| ==> blocks[i] != blocks[j])
  }

  /** Every block the header names is pinned in the cache. */
  ghost predicate Cached(blocks: seq<nat>, cache: map<nat, Block>) {
    forall b :: b in blocks ==> b in cache
  }

  /** The state in which commit() may start. */
  ghost predicate CanCommit(g: Geometry, d: Disk, blocks: seq<nat>, cache: map<nat, Block>) {
    GoodDisk(g, d) && GoodBlocks(g, blocks) && Cached(blocks, cache)
  }

  // ---------------------------------------------------------------- write scripts

  /** write_log: copy the pinned cache blocks into the log slots. */
  function LogWrites(g: Geometry, blocks: seq<nat>, cache: map<nat, Block>): (ws: seq<BlockWrite>)
    requires Cached(blocks, cache)
    ensures |ws| == |blocks|
  {
    seq(|blocks|, i requires 0 <= i < |blocks| => BlockWrite(g.start + 1 + i, cache[blocks[i]]))
  }

  /** write_head: the header block with the given entries. */
  function HeadWrite(g: Geometry, d: Disk, blocks: seq<nat>): (w: BlockWrite)
    requires |blocks| <= LOGSIZE && g.start < |d|
  {
    BlockWrite(g.start, EncodeHead(d[g.start], blocks))
  }

  /** install_trans: copy the log slots of d to their home locations. */
  function InstallWrites(g: Geometry, d: Disk, blocks: seq<nat>): (ws: seq<BlockWrite>)
    requires GoodBlocks(g, blocks) && |d| == g.total
    ensures |ws| == |blocks|
  {
    seq(|blocks|, i requires 0 <= i < |blocks| => BlockWrite(blocks[i], d[g.start + 1 + i]))
  }

  /** The disk just after the header write, the commit point. */
  function Committed(g: Geometry, d: Disk, blocks: seq<nat>, cache: map<nat, Block>): (r: Disk)
    requires CanCommit(g, d, blocks, cache)
    ensures |r| == |d|
  {
    var l := Apply(d, LogWrites(g, blocks, cache));
    l[g.start := EncodeHead(l[g.start], blocks)]
  }

  /** install_trans followed by write_head with n == 0. */
  function ReplayWrites(g: Geometry, d: Disk, blocks: seq<nat>): (ws: seq<BlockWrite>)
    requires GoodBlocks(g, blocks) && |d| == g.total
    ensures |ws| == |blocks| + 1
  {
    var ins := InstallWrites(g, d, blocks);
    ins + [HeadWrite(g, Apply(d, ins), [])]
  }

  /** Every bwrite that commit() issues, in order. */
  function CommitWrites(g: Geometry, d: Disk, blocks: seq<nat>, cache: map<nat, Block>): (ws: seq<BlockWrite>)
    requires CanCommit(g, d, blocks, cache)
    ensures |ws| == if blocks == [] then 0 else 2 * |blocks| + 2
  {
    if blocks == [] then []
    else
      var lw := LogWrites(g, blocks, cache);
      lw + [HeadWrite(g, Apply(d, lw), blocks)] + ReplayWrites(g, Committed(g, d, blocks, cache), blocks)
  }

  /** The in-memory header that read_head loads is fit to replay. */
  lemma HeadBlocksGood(g: Geometry, d: Disk)
    requires GoodDisk(g, d)
    ensures GoodBlocks(g, HeadBlocks(g, d))
  {
  }

  /** Every bwrite that recover_from_log() issues, in order. */
  function RecoverWrites(g: Geometry, d: Disk): (ws: seq<BlockWrite>)
    requires GoodDisk(g, d)
    ensures |ws| == d[g.start].w[0] + 1
  {
    HeadBlocksGood(g, d);
    ReplayWrites(g, d, HeadBlocks(g, d))
  }

  // ---------------------------------------------------------------- meaning of a disk

  /** The file-system blocks of a disk: everything outside the log. */
  ghost function Home(g: Geometry, d: Disk): (h: map<nat, Block>)
    requires |d| == g.total
  {
    map b: nat | b < g.total && g.IsHome(b) :: d[b]
  }

  /** The file-system blocks once recovery has run to its end. */
  ghost function Recovered(g: Geometry, d: Disk): (h: map<nat, Block>)
    requires GoodDisk(g, d)
  {
    Home(g, Apply(d, RecoverWrites(g, d)))
  }

  /** The header of d assigns log slot i to home block b. */
  ghost predicate Names(g: Geometry, d: Disk, i: nat, b: nat)
    requires GoodDisk(g, d)
  {
    i < d[g.start].w[0] && d[g.start].w[1 + i] == b
  }

  /** The contents of home block b according to the log: an independent reading of recovery. */
  ghost predicate Means(g: Geometry, d: Disk, b: nat, v: Block)
    requires GoodDisk(g, d) && g.IsHome(b)
  {
    && (forall i: nat :: Names(g, d, i, b) ==> v == d[g.start + 1 + i])
    && ((forall i: nat :: !Names(g, d, i, b)) ==> v == d[b])
  }

  /** The updates a transaction makes: the cached contents of the blocks it names. */
  ghost function Updates(blocks: seq<nat>, cache: map<nat, Block>): (u: map<nat, Block>)
    requires Cached(blocks, cache)
  {
    map b | b in blocks :: cache[b]
  }

  lemma ApplyOne(d: Disk, ws: seq<BlockWrite>, w: BlockWrite)
    requires w.bno < |d|
    ensures Apply(d, ws + [w]) == Apply(d, ws)[w.bno := w.data]
    ensures Apply(d, [w]) == d[w.bno := w.data]
  {
    assert (ws + [w])[..|ws|] == ws;
    assert [w][..0] == [];
  }

  lemma InstallAt(g: Geometry, d: Disk, blocks: seq<nat>, k: nat, b: nat)
    requires GoodBlocks(g, blocks) && |d| == g.total && k <= |blocks| && b < |d|
    ensures var r := Apply(d, InstallWrites(g, d, blocks)[..k]);
            && (forall i :: 0 <= i < k && blocks[i] == b ==> r[b] == d[g.start + 1 + i])
            && (b !in blocks[..k] ==> r[b] == d[b])
  {
    hide Apply;
    var ws := InstallWrites(g, d, blocks)[..k];
    assert forall i :: 0 <= i < k ==> ws[i] == BlockWrite(blocks[i], d[g.start + 1 + i]);
    if i :| 0 <= i < k && blocks[i] == b {
      ApplyHit(d, ws, i);
    } else {
      ApplyFrame(d, ws, b);
    }
  }

  /** Recovery gives each home block exactly what the log says it holds. */
  lemma RecoveredIsLogical(g: Geometry, d: Disk, b: nat)
    requires GoodDisk(g, d) && g.IsHome(b)
    ensures Means(g, d, b, Recovered(g, d)[b])
  {
    HeadBlocksGood(g, d);
    var blocks := HeadBlocks(g, d);
    var ins := InstallWrites(g, d, blocks);
    assert ins[..|blocks|] == ins && blocks[..|blocks|] == blocks;
    InstallAt(g, d, blocks, |blocks|, b);
    ApplyOne(d, ins, HeadWrite(g, Apply(d, ins), []));
    forall i: nat | Names(g, d, i, b) ensures Recovered(g, d)[b] == d[g.start + 1 + i] {
      assert blocks[i] == b;
    }
    if b in blocks {
      var i :| 0 <= i < |blocks| && blocks[i] == b;
      assert Names(g, d, i, b);
    }
  }

  /** What the log says of the blocks determines what recovery yields. */
  lemma SameMeaning(g: Geometry, d: Disk, e: Disk)
    requires GoodDisk(g, d) && GoodDisk(g, e)
    requires forall b: nat, v: Block :: g.IsHome(b) && Means(g, d, b, v) ==> Means(g, e, b, v)
    ensures Recovered(g, d) == Recovered(g, e)
  {
    forall b: nat | g.IsHome(b) ensures Recovered(g, d)[b] == Recovered(g, e)[b] {
      RecoveredIsLogical(g, d, b);
      RecoveredIsLogical(g, e, b);
      assert Means(g, e, b, Recovered(g, d)[b]);
    }
  }

  /** A disk whose header is empty recovers to itself. */
  lemma CleanRecovers(g: Geometry, d: Disk)
    requires GoodDisk(g, d) && d[g.start].w[0] == 0
    ensures Recovered(g, d) == Home(g, d)
  {
    forall b: nat | g.IsHome(b) ensures Recovered(g, d)[b] == Home(g, d)[b] {
      RecoveredIsLogical(g, d, b);
    }
  }

  /** install_trans stopped after any k of its writes: the log and the meaning are unchanged. */
  lemma InstallPrefix(g: Geometry, d: Disk, k: nat, r: Disk)
    requires GoodDisk(g, d) && k <= d[g.start].w[0]
    requires GoodBlocks(g, HeadBlocks(g, d))
    requires r == Apply(d, InstallWrites(g, d, HeadBlocks(g, d))[..k])
    ensures GoodDisk(g, r) && Recovered(g, r) == Recovered(g, d)
  {
    hide Apply, Recovered;
    var blocks := HeadBlocks(g, d);
    forall b: nat | g.InLog(b) ensures r[b] == d[b] {
      InstallAt(g, d, blocks, k, b);
    }
    forall b: nat, v: Block | g.IsHome(b) && Means(g, d, b, v) ensures Means(g, r, b, v) {
      InstallAt(g, d, blocks, k, b);
      forall i: nat ensures Names(g, r, i, b) <==> Names(g, d, i, b) {}
      if b in blocks[..k] {
        var i :| 0 <= i < k && blocks[i] == b;
        assert Names(g, d, i, b);
      }
    }
    SameMeaning(g, d, r);
  }

  /**
   A recovery stopped after any k of its writes leaves a good disk that means what it meant
   before; run to its end it also empties the log.
   */
  lemma RecoverPrefix(g: Geometry, d: Disk, k: nat, r: Disk)
    requires GoodDisk(g, d) && k <= |RecoverWrites(g, d)|
    requires r == Apply(d, RecoverWrites(g, d)[..k])
    ensures GoodDisk(g, r) && Recovered(g, r) == Recovered(g, d)
    ensures k == |RecoverWrites(g, d)| ==> r[g.start].w[0] == 0
  {
    HeadBlocksGood(g, d);
    var ins := InstallWrites(g, d, HeadBlocks(g, d));
    var ws := RecoverWrites(g, d);
    if k <= |ins| {
      assert ws[..k] == ins[..k];
      InstallPrefix(g, d, k, r);
    } else {
      assert ws[..k] == ws;
      ApplyOne(d, ins, HeadWrite(g, Apply(d, ins), []));
      CleanRecovers(g, r);
    }
  }

  /** read_head gives back what write_head stored. */
  lemma HeadRoundTrip(g: Geometry, d: Disk, blocks: seq<nat>)
    requires |d| == g.total && GoodBlocks(g, blocks)
    ensures var r := d[g.start := EncodeHead(d[g.start], blocks)];
            GoodDisk(g, r) && HeadBlocks(g, r) == blocks
  {
    var h := EncodeHead(d[g.start], blocks);
    assert forall i :: 1 <= i <= |blocks| ==> h.w[i] == blocks[i - 1];
  }

  /** write_log fills the slots and touches neither the header nor a home block. */
  lemma LoggedShape(g: Geometry, d: Disk, blocks: seq<nat>, cache: map<nat, Block>, k: nat, r: Disk)
    requires CanCommit(g, d, blocks, cache) && k <= |blocks|
    requires r == Apply(d, LogWrites(g, blocks, cache)[..k])
    ensures forall i :: 0 <= i < k ==> r[g.start + 1 + i] == cache[blocks[i]]
    ensures forall b: nat :: b == g.start || g.IsHome(b) ==> r[b] == d[b]
  {
    var ws := LogWrites(g, blocks, cache)[..k];
    forall i | 0 <= i < k ensures r[g.start + 1 + i] == cache[blocks[i]] {
      ApplyHit(d, ws, i);
      assert ws[i].bno == g.start + 1 + i;
    }
    forall b: nat | b == g.start || g.IsHome(b) ensures r[b] == d[b] {
      ApplyFrame(d, ws, b);
    }
  }

  /** The log slots and the header once the commit point is passed. */
  lemma CommittedShape(g: Geometry, d: Disk, blocks: seq<nat>, cache: map<nat, Block>, c: Disk)
    requires CanCommit(g, d, blocks, cache) && c == Committed(g, d, blocks, cache)
    ensures GoodDisk(g, c) && HeadBlocks(g, c) == blocks
    ensures forall i :: 0 <= i < |blocks| ==> c[g.start + 1 + i] == cache[blocks[i]]
    ensures forall b: nat :: g.IsHome(b) ==> c[b] == d[b]
  {
    var ws := LogWrites(g, blocks, cache);
    var l := Apply(d, ws);
    assert ws[..|blocks|] == ws;
    LoggedShape(g, d, blocks, cache, |blocks|, l);
    HeadRoundTrip(g, l, blocks);
  }

  lemma CommittedMeaningAt(g: Geometry, d: Disk, blocks: seq<nat>, cache: map<nat, Block>, c: Disk, b: nat)
    requires CanCommit(g, d, blocks, cache) && g.IsHome(b) && GoodDisk(g, c) && HeadBlocks(g, c) == blocks
    requires forall i :: 0 <= i < |blocks| ==> c[g.start + 1 + i] == cache[blocks[i]]
    requires forall b: nat :: g.IsHome(b) ==> c[b] == d[b]
    ensures Recovered(g, c)[b] == if b in blocks then cache[b] else d[b]
  {
    RecoveredIsLogical(g, c, b);
    if b in blocks {
      var i :| 0 <= i < |blocks| && blocks[i] == b;
      assert Names(g, c, i, b);
    } else {
      forall i: nat ensures !Names(g, c, i, b) {
        assert i < |blocks| ==> blocks[i] != b;
      }
    }
  }

  /** Past the commit point the disk means the old file system with the updates made. */
  lemma CommittedMeaning(g: Geometry, d: Disk, blocks: seq<nat>, cache: map<nat, Block>, c: Disk)
    requires CanCommit(g, d, blocks, cache) && c == Committed(g, d, blocks, cache)
    ensures GoodDisk(g, c) && Recovered(g, c) == Home(g, d) + Updates(blocks, cache)
  {
    hide Committed, Apply, RecoverWrites, HeadBlocks;
    CommittedShape(g, d, blocks, cache, c);
    forall b: nat | g.IsHome(b)
      ensures Recovered(g, c)[b] == if b in blocks then cache[b] else d[b]
    {
      CommittedMeaningAt(g, d, blocks, cache, c, b);
    }
  }

  /** The part of a commit after its header write is a recovery of the committed disk. */
  lemma CommitTail(g: Geometry, d: Disk, blocks: seq<nat>, cache: map<nat, Block>, k: nat)
    requires CanCommit(g, d, blocks, cache) && blocks != [] && k <= |blocks| + 1
    ensures var c := Committed(g, d, blocks, cache);
            && GoodDisk(g, c) && |RecoverWrites(g, c)| == |blocks| + 1
            && Apply(d, CommitWrites(g, d, blocks, cache)[..|blocks| + 1 + k])
               == Apply(c, RecoverWrites(g, c)[..k])
  {
    var c := Committed(g, d, blocks, cache);
    CommittedShape(g, d, blocks, cache, c);
    var rw := RecoverWrites(g, c);
    var lw := LogWrites(g, blocks, cache);
    var hw := HeadWrite(g, Apply(d, lw), blocks);
    assert CommitWrites(g, d, blocks, cache)[..|blocks| + 1 + k] == lw + [hw] + rw[..k];
    ApplyOne(d, lw, hw);
    ApplyConcat(d, lw + [hw], rw[..k]);
  }

  /** A commit stopped before its header write has changed nothing. */
  lemma CommitEarly(g: Geometry, d: Disk, blocks: seq<nat>, cache: map<nat, Block>, k: nat, r: Disk)
    requires CanCommit(g, d, blocks, cache) && d[g.start].w[0] == 0
    requires k <= |blocks| && r == Apply(d, LogWrites(g, blocks, cache)[..k])
    ensures GoodDisk(g, r) && r[g.start].w[0] == 0 && Recovered(g, r) == Home(g, d)
  {
    LoggedShape(g, d, blocks, cache, k, r);
    CleanRecovers(g, r);
  }

  /** A commit stopped after its header write has made all its updates. */
  lemma CommitLate(g: Geometry, d: Disk, blocks: seq<nat>, cache: map<nat, Block>, k: nat, r: Disk)
    requires CanCommit(g, d, blocks, cache) && blocks != [] && k <= |blocks| + 1
    requires r == Apply(d, CommitWrites(g, d, blocks, cache)[..|blocks| + 1 + k])
    ensures GoodDisk(g, r) && Recovered(g, r) == Home(g, d) + Updates(blocks, cache)
    ensures k == |blocks| + 1 ==> r[g.start].w[0] == 0
  {
    var c := Committed(g, d, blocks, cache);
    CommitTail(g, d, blocks, cache, k);
    CommittedMeaning(g, d, blocks, cache, c);
    RecoverPrefix(g, c, k, r);
  }

  /**
   Atomicity of one commit. Whatever number k of its block writes reached the disk, recovery
   yields either the file system before the transaction or the one after all of it, and which
   one depends only on whether the header write, number |blocks|, was among them.
   */
  lemma CommitPrefix(g: Geometry, d: Disk, blocks: seq<nat>, cache: map<nat, Block>, k: nat, r: Disk)
    requires CanCommit(g, d, blocks, cache) && d[g.start].w[0] == 0
    requires k <= |CommitWrites(g, d, blocks, cache)|
    requires r == Apply(d, CommitWrites(g, d, blocks, cache)[..k])
    ensures GoodDisk(g, r)
    ensures Recovered(g, r) ==
            if k <= |blocks| then Home(g, d) else Home(g, d) + Updates(blocks, cache)
    ensures k == |CommitWrites(g, d, blocks, cache)| ==> r[g.start].w[0] == 0
  {
    hide Apply, Recovered, Home, Updates;
    var ws := CommitWrites(g, d, blocks, cache);
    if k <= |blocks| {
      assert ws[..k] == LogWrites(g, blocks, cache)[..k];
      CommitEarly(g, d, blocks, cache, k, r);
    } else {
      CommitLate(g, d, blocks, cache, k - |blocks| - 1, r);
    }
  }
}
