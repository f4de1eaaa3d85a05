/**
 The logging code itself: the global log structure, its loops over header entries and
 blocks, and the block writes they issue, each method proved to issue exactly the writes
 that the crash analysis of LogDisk and LogRuns is about.
 */
module Log {
  import opened LogDisk
  import opened LogRuns

  lemma InRange(g: Geometry, d: Disk)
    requires GoodDisk(g, d)
    ensures g.Valid() && |d| == g.total
  {
  }

  /** Logging, committing, installing and clearing compose to the whole commit. */
  lemma CommitScript(g: Geometry, d: Disk, blocks: seq<nat>, cache: map<nat, Block>, r: Disk)
    requires CanCommit(g, d, blocks, cache) && blocks != []
    requires var c := Committed(g, d, blocks, cache);
             var ins := InstallWrites(g, c, blocks);
             r == Apply(Apply(c, ins), [HeadWrite(g, Apply(c, ins), [])])
    ensures r == Apply(d, CommitWrites(g, d, blocks, cache))
    ensures GoodDisk(g, r) && r[g.start].w[0] == 0
  {
    hide Apply, Recovered;
    var c := Committed(g, d, blocks, cache);
    var ins := InstallWrites(g, c, blocks);
    var ws := CommitWrites(g, d, blocks, cache);
    CommittedShape(g, d, blocks, cache, c);
    CommitTail(g, d, blocks, cache, |blocks| + 1);
    var rw := RecoverWrites(g, c);
    assert rw[..|blocks| + 1] == rw && ws[..2 * |blocks| + 2] == ws;
    ApplyConcat(c, ins, [HeadWrite(g, Apply(c, ins), [])]);
    RecoverPrefix(g, c, |rw|, r);
  }

  /** A finished commit leaves an empty header and all the updates in place. */
  lemma CommitMeaning(g: Geometry, d: Disk, blocks: seq<nat>, cache: map<nat, Block>, r: Disk)
    requires CanCommit(g, d, blocks, cache) && d[g.start].w[0] == 0
    requires r == Apply(d, CommitWrites(g, d, blocks, cache))
    ensures GoodDisk(g, r) && r[g.start].w[0] == 0 && Home(g, r) == Home(g, d) + Updates(blocks, cache)
  {
    hide Apply, Recovered, CommitWrites, Home;
    var ws := CommitWrites(g, d, blocks, cache);
    assert ws[..|ws|] == ws;
    CommitPrefix(g, d, blocks, cache, |ws|, r);
    CleanRecovers(g, r);
    if blocks == [] {
      assert Updates(blocks, cache) == map[];
      assert Home(g, d) + map[] == Home(g, d);
    }
  }

  class Log {
    const g: Geometry           // log.start, log.size and the size of the disk
    var disk: Disk              // the in-memory disk of memide.c
    var cache: map<nat, Block>  // buffers pinned by B_DIRTY
    var n: nat                  // log.lh.n
    var block: array<nat>       // log.lh.block
    var outstanding: nat
    var committing: bool
    ghost var trace: seq<BlockWrite>  // every bwrite so far

    /** log.lh as a sequence. */
    ghost function Entries(): (bs: seq<nat>)
      reads this, block
      requires n <= block.Length
    {
      block[..n]
    }

    ghost predicate Valid()
      reads this, block
    {
      && block.Length == LOGSIZE && n <= LOGSIZE
      && GoodDisk(g, disk)
      && GoodBlocks(g, Entries())
      && (forall b :: b in cache <==> b in Entries())
    }

    /** bread: a pinned buffer holds the block's latest contents, any other equals the disk. */
    method Bread(b: nat) returns (data: Block)
      requires b < |disk|
      ensures data == if b in cache then cache[b] else disk[b]
    {
      data := if b in cache then cache[b] else disk[b];
    }

    /** bwrite: write the block and unpin the buffer. */
    method Bwrite(b: nat, data: Block)
      requires b < |disk|
      modifies this`disk, this`cache, this`trace
      ensures disk == old(disk)[b := data] && disk == Apply(old(disk), [BlockWrite(b, data)])
      ensures cache == old(cache) - {b}
      ensures trace == old(trace) + [BlockWrite(b, data)]
    {
      ApplyOne(disk, [], BlockWrite(b, data));
      disk := disk[b := data];
      cache := cache - {b};
      trace := trace + [BlockWrite(b, data)];
    }

    /** Read the header block into log.lh. */
    method ReadHead()
      requires GoodDisk(g, disk) && block.Length == LOGSIZE && g.start !in cache
      modifies this`n, block
      ensures n <= LOGSIZE && Entries() == HeadBlocks(g, disk)
    {
      var buf := Bread(g.start);
      n := buf.w[0];
      var i := 0;
      while i < n
        invariant 0 <= i <= n <= LOGSIZE && n == buf.w[0]
        invariant forall j :: 0 <= j < i ==> block[j] == buf.w[1 + j]
      {
        block[i] := buf.w[1 + i];
        i := i + 1;
      }
    }

    /** Write log.lh to the header block. */
    method WriteHead()
      requires g.Valid() && |disk| == g.total && block.Length == LOGSIZE && n <= LOGSIZE && g.start !in cache
      modifies this`disk, this`cache, this`trace
      ensures var w := HeadWrite(g, old(disk), Entries());
              disk == Apply(old(disk), [w]) && trace == old(trace) + [w]
      ensures disk == old(disk)[g.start := EncodeHead(old(disk)[g.start], Entries())]
      ensures cache == old(cache)
    {
      var hb := Bread(g.start);
      var w := hb.w[0 := n];
      var i := 0;
      while i < n
        invariant 0 <= i <= n && |w| == WORDS && w[0] == n
        invariant forall j :: 1 <= j <= i ==> w[j] == block[j - 1]
        invariant forall j :: i < j < WORDS ==> w[j] == hb.w[j]
      {
        w := w[1 + i := block[i]];
        i := i + 1;
      }
      assert w == EncodeHead(hb, Entries()).w;
      Bwrite(g.start, Words(w));
      assert cache == old(cache);
    }

    /** Copy the pinned buffers to the log slots. */
    method WriteLog()
      requires Valid()
      modifies this`disk, this`cache, this`trace
      ensures disk == Apply(old(disk), LogWrites(g, Entries(), old(cache)))
      ensures trace == old(trace) + LogWrites(g, Entries(), old(cache))
      ensures cache == old(cache)
    {
      hide Apply, Home, Recovered, GoodDisk;
      assert |disk| == g.total by { InRange(g, disk); }
      ghost var ws := LogWrites(g, Entries(), cache);
      ApplyNothing(disk, ws);
      var tail := 0;
      while tail < n
        invariant 0 <= tail <= n
        invariant disk == Apply(old(disk), ws[..tail]) && |disk| == g.total
        invariant trace == old(trace) + ws[..tail]
        invariant cache == old(cache)
      {
        var from := Bread(block[tail]);
        assert BlockWrite(g.start + 1 + tail, from) == ws[tail];
        Bwrite(g.start + 1 + tail, from);
        assert cache == old(cache);
        ScriptStep(old(disk), ws, tail);
        tail := tail + 1;
      }
      assert ws[..n] == ws;
    }

    /** Copy the log slots to their home locations. */
    method InstallTrans()
      requires block.Length == LOGSIZE && n <= LOGSIZE && |disk| == g.total && GoodBlocks(g, Entries())
      requires forall b :: b in cache ==> b in Entries()
      modifies this`disk, this`cache, this`trace
      ensures disk == Apply(old(disk), InstallWrites(g, old(disk), Entries()))
      ensures trace == old(trace) + InstallWrites(g, old(disk), Entries())
      ensures cache == map[]
    {
      hide Apply;
      ghost var ws := InstallWrites(g, disk, Entries());
      ApplyNothing(disk, ws);
      var tail := 0;
      while tail < n
        invariant 0 <= tail <= n
        invariant disk == Apply(old(disk), ws[..tail]) && |disk| == g.total
        invariant trace == old(trace) + ws[..tail]
        invariant forall b :: b in cache ==> b in Entries()[tail..]
      {
        var lbuf := Bread(g.start + 1 + tail);
        ApplyFrame(old(disk), ws[..tail], g.start + 1 + tail);
        assert lbuf == old(disk)[g.start + 1 + tail];
        Bwrite(block[tail], lbuf);
        ScriptStep(old(disk), ws, tail);
        tail := tail + 1;
      }
      assert ws[..n] == ws;
      assert Entries()[n..] == [];
    }

    /** Replay the log named by the header on disk, then clear the header. */
    method RecoverFromLog()
      requires GoodDisk(g, disk) && block.Length == LOGSIZE && cache == map[]
      modifies this`disk, this`cache, this`trace, this`n, block
      ensures Valid() && n == 0 && cache == map[]
      ensures disk == Apply(old(disk), RecoverWrites(g, old(disk)))
      ensures trace == old(trace) + RecoverWrites(g, old(disk))
      ensures disk[g.start].w[0] == 0 && Home(g, disk) == Recovered(g, old(disk))
    {
      ReadHead();
      ghost var ins := InstallWrites(g, disk, HeadBlocks(g, disk));
      InstallTrans();
      n := 0;
      ghost var mid := disk;
      WriteHead();
      assert Entries() == [];
      ApplyConcat(old(disk), ins, [HeadWrite(g, mid, [])]);
      ghost var ws := RecoverWrites(g, old(disk));
      assert ws[..|ws|] == ws;
      RecoverPrefix(g, old(disk), |ws|, disk);
    }

    /** commit(): nothing if no block was logged, else log, commit, install and clear. */
    method Commit()
      requires Valid() && CanCommit(g, disk, Entries(), cache)
      modifies this`disk, this`cache, this`trace, this`n
      ensures Valid() && n == 0 && cache == map[]
      ensures disk == Apply(old(disk), CommitWrites(g, old(disk), old(Entries()), old(cache)))
      ensures trace == old(trace) + CommitWrites(g, old(disk), old(Entries()), old(cache))
    {
      hide Apply, GoodDisk, EncodeHead, LogWrites, InstallWrites, Recovered;
      if n > 0 {
        ghost var blocks := Entries();
        ghost var lw := LogWrites(g, blocks, cache);
        ghost var c := Committed(g, disk, blocks, cache);
        CommittedShape(g, disk, blocks, cache, c);
        InRange(g, disk);
        WriteLog();
        WriteHead();
        assert disk == c;
        ghost var marked := trace;
        InstallTrans();
        n := 0;
        WriteHead();
        assert Entries() == [];
        assert trace == marked + ReplayWrites(g, c, blocks);
        CommitScript(g, old(disk), blocks, old(cache), disk);
      } else {
        ApplyNothing(disk, []);
      }
    }

    /** One pass of begin_op's loop: take a reservation, or report that the caller must sleep. */
    method TryBeginOp() returns (ok: bool)
      requires Valid()
      modifies this`outstanding
      ensures Valid()
      ensures ok <==> !committing && n + (old(outstanding) + 1) * MAXOPBLOCKS <= LOGSIZE
      ensures outstanding == old(outstanding) + (if ok then 1 else 0)
    {
      if committing {
        ok := false;
      } else if n + (outstanding + 1) * MAXOPBLOCKS > LOGSIZE {
        ok := false;
      } else {
        outstanding := outstanding + 1;
        ok := true;
      }
    }

    /** log_write: pin the buffer and record its block number once; false is a panic. */
    method LogWrite(bno: nat, data: Block) returns (ok: bool)
      requires Valid() && g.IsHome(bno)
      modifies this`cache, this`n, block
      ensures Valid()
      ensures ok <==> old(n) < g.Capacity() && outstanding >= 1
      ensures ok ==>
        && Entries() == old(Entries()) + (if bno in old(Entries()) then [] else [bno])
        && cache == old(cache)[bno := data]
      ensures !ok ==> Entries() == old(Entries()) && cache == old(cache)
    {
      if n >= LOGSIZE || n >= g.size - 1 {
        return false;
      }
      if outstanding < 1 {
        return false;
      }
      ghost var was := Entries();
      var i := 0;
      while i < n
        invariant 0 <= i <= n
        invariant bno !in Entries()[..i]
      {
        if block[i] == bno {
          break;
        }
        i := i + 1;
      }
      assert i == n ==> was[..i] == was;
      assert i < n ==> was[i] == bno;
      block[i] := bno;
      if i == n {
        n := n + 1;
      }
      assert Entries() == Absorb(was, bno);
      AbsorbGood(g, was, bno);
      cache := cache[bno := data];
      ok := true;
    }

    /**
     end_op: the last operation to end commits; false is the panic "log.committing".
     The commit runs with committing set and, since outstanding is 0, with no operation open.
     */
    method EndOp() returns (ok: bool)
      requires Valid() && outstanding >= 1 && CanCommit(g, disk, Entries(), cache)
      modifies this`disk, this`cache, this`trace, this`n, this`outstanding, this`committing
      ensures Valid()
      ensures ok <==> !old(committing)
      ensures outstanding == old(outstanding) - 1
      ensures ok ==> !committing
      ensures ok && outstanding == 0 ==>
        && n == 0 && cache == map[]
        && trace == old(trace) + CommitWrites(g, old(disk), old(Entries()), old(cache))
        && disk == Apply(old(disk), CommitWrites(g, old(disk), old(Entries()), old(cache)))
      ensures ok && outstanding > 0 ==>
        && Entries() == old(Entries()) && cache == old(cache)
        && disk == old(disk) && trace == old(trace)
      ensures !ok ==>
        && committing && Entries() == old(Entries()) && cache == old(cache)
        && disk == old(disk) && trace == old(trace)
    {
      var doCommit := false;
      outstanding := outstanding - 1;
      if committing {
        return false;
      }
      if outstanding == 0 {
        doCommit := true;
        committing := true;
      }
      if doCommit {
        Commit();
        committing := false;
      }
      ok := true;
    }

    /**
     An operation that ends and another that begins: the new one is admitted exactly if the log has
     room for it beside those still open. The last one to end has emptied the log, so there is room
     then.
     */
    method EndThenBegin() returns (ok: bool)
      requires Valid() && outstanding >= 1 && !committing && CanCommit(g, disk, Entries(), cache)
      modifies this`disk, this`cache, this`trace, this`n, this`outstanding, this`committing
      ensures Valid() && !committing
      ensures ok <==> old(outstanding) == 1 || old(n) + old(outstanding) * MAXOPBLOCKS <= LOGSIZE
      ensures outstanding == old(outstanding) - 1 + (if ok then 1 else 0)
    {
      var ended := EndOp();
      ok := TryBeginOp();
    }
  }
  // ---------------------------------------------------------------- the code takes the steps of the runs

  /** The log structure is in state s of a run, between system calls. */
  ghost predicate InState(l: Log, s: State)
    reads l, l.block
  {
    && l.Valid() && !l.committing && s.phase == Running && s.disk == l.disk && s.blocks == l.Entries()
    && s.cache == l.cache && |s.open| == l.outstanding && (forall op :: op in s.open ==> op in s.owner)
  }

  /** begin_op goes through exactly when the runs let an operation begin, and then is that step. */
  method BeginStep(l: Log, ghost s: State, ghost op: OpId) returns (ok: bool)
    requires InState(l, s) && op !in s.owner
    modifies l
    ensures ok <==> Enabled(l.g, s, BeginOp(op))
    ensures InState(l, if ok then Do(l.g, s, BeginOp(op)) else s)
  {
    hide GoodDisk;
    ok := l.TryBeginOp();
    assert s.open - {op} == s.open;
    OneMore(s.open, op, 0);
  }

  /** log_write is the step of the runs, its panic included. */
  method WriteStep(l: Log, ghost s: State, ghost op: OpId, bno: nat, data: Block) returns (ok: bool)
    requires InState(l, s) && Enabled(l.g, s, LogWrite(op, bno, data))
    modifies l, l.block
    ensures ok <==> Do(l.g, s, LogWrite(op, bno, data)).phase != Panicked
    ensures ok ==> InState(l, Do(l.g, s, LogWrite(op, bno, data)))
  {
    hide GoodDisk;
    assert op in s.open.Keys;
    ok := l.LogWrite(bno, data);
    ghost var n := s.open[op] + 1;
    OneMore(s.open, op, n);
    OneFewer(s.open, op);
  }

  /** The commit from state s on, up to its k-th block write. */
  lemma {:induction false} CommitUpTo(g: Geometry, s: State, k: nat) returns (es: seq<Event>, t: State)
    requires s.phase == Committing(s.disk, 0, s.committed) && CanCommit(g, s.disk, s.blocks, s.cache)
    requires k <= |CommitWrites(g, s.disk, s.blocks, s.cache)|
    ensures g.Valid() && Reaches(g, s, es, t)
    ensures var ws := CommitWrites(g, s.disk, s.blocks, s.cache);
      t == s.(disk := Apply(s.disk, ws[..k]), phase := Committing(s.disk, k, s.committed),
              committed := if k <= |s.blocks| then s.committed else s.committed + [s.group])
  {
    hide Apply, CommitWrites, GoodDisk, Reaches;
    InRange(g, s.disk);
    var ws := CommitWrites(g, s.disk, s.blocks, s.cache);
    if k == 0 {
      es, t := [], s;
      ReachesNone(g, s);
      ApplyNothing(s.disk, ws);
    } else {
      var fs, u := CommitUpTo(g, s, k - 1);
      ScriptStep(s.disk, ws, k - 1);
      es, t := fs + [DiskWrite], Do(g, u, DiskWrite);
      ReachesMore(g, s, fs, u, DiskWrite);
    }
  }

  /** A whole commit is a run from the state in which it starts to the one in which it returns. */
  lemma CommitRun(g: Geometry, s: State) returns (es: seq<Event>, t: State)
    requires s.phase == Committing(s.disk, 0, s.committed) && CanCommit(g, s.disk, s.blocks, s.cache)
    ensures g.Valid() && Reaches(g, s, es, t) && s.group.id in t.returned
    ensures t.phase == Running && t.blocks == [] && t.cache == map[] && t.open == map[]
    ensures t.disk == Apply(s.disk, CommitWrites(g, s.disk, s.blocks, s.cache))
    ensures t.committed == s.committed + [s.group] && t.owner == s.owner
  {
    hide Apply, CommitWrites, GoodDisk, Reaches;
    InRange(g, s.disk);
    var ws := CommitWrites(g, s.disk, s.blocks, s.cache);
    assert ws[..|ws|] == ws;
    var fs, u := CommitUpTo(g, s, |ws|);
    es, t := fs + [CommitReturns], Do(g, u, CommitReturns);
    ReachesMore(g, s, fs, u, CommitReturns);
  }

  /**
   end_op is a run: the operation ends, and if it was the last one the commit is made, block write
   by block write, and returns with the group committed.
   */
  method EndStep(l: Log, ghost s: State, ghost op: OpId) returns (ok: bool, ghost es: seq<Event>, ghost t: State)
    requires InState(l, s) && op in s.open
    modifies l, l.block
    ensures ok && InState(l, t) && l.g.Valid() && Reaches(l.g, s, es, t)
    ensures s.open.Keys == {op} ==> t.committed == s.committed + [s.group] && s.group.id in t.returned
    ensures s.open.Keys != {op} ==> t == Do(l.g, s, EndOp(op))
  {
    hide Apply, CommitWrites, GoodDisk, Reaches;
    InRange(l.g, l.disk);
    OneFewer(s.open, op);
    assert s.open.Keys == (s.open - {op}).Keys + {op};
    ok := l.EndOp();
    t := Do(l.g, s, EndOp(op));
    ReachesNone(l.g, s);
    ReachesMore(l.g, s, [], s, EndOp(op));
    es := [] + [EndOp(op)];
    if t.phase != Running {
      ghost var fs, u := CommitRun(l.g, t);
      ReachesOn(l.g, s, es, t, fs, u);
      es, t := es + fs, u;
    }
  }

  lemma {:induction false} ReachesOn(g: Geometry, s: State, es: seq<Event>, t: State, fs: seq<Event>, u: State)
    requires g.Valid() && Reaches(g, s, es, t) && Reaches(g, t, fs, u)
    ensures Reaches(g, s, es + fs, u)
    decreases |fs|
  {
    hide Do, Enabled;
    if fs == [] {
      assert es + fs == es;
    } else {
      var last := |fs| - 1;
      var w :| Reaches(g, t, fs[..last], w) && Enabled(g, w, fs[last]) && u == Do(g, w, fs[last]);
      ReachesOn(g, s, es, t, fs[..last], w);
      ReachesMore(g, s, es + fs[..last], w, fs[last]);
      assert es + fs[..last] + [fs[last]] == es + fs;
    }
  }
}
