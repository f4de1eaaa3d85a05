/**
 The log as a protocol: file-system operations open, write and close in any interleaving,
 the last one to close commits, every bwrite is one step, and the machine may crash between
 any two steps, during recovery as well.
 */
module LogRuns {
  import opened LogDisk

  type OpId = nat

  /** A log_write made by an operation. */
  datatype OpWrite = OpWrite(op: OpId, bno: nat, data: Block)

  /** The writes of all operations that commit together. */
  datatype Group = Group(id: nat, writes: seq<OpWrite>)

  datatype Phase =
    | Running
    // commit() started on base after the groups prior and issued done block writes
    | Committing(base: Disk, done: nat, prior: seq<Group>)
    // recover_from_log() started on base and issued done block writes
    | Recovering(base: Disk, done: nat)
    | Down      // crashed, memory lost
    | Panicked  // "too big a transaction"

  /**
   disk, blocks and cache are the disk, log.lh.block[0..n) and the pinned buffers; open maps
   each operation between begin_op and end_op to the number of entries it added.
   The rest is history: the current group, the group each operation belongs to, the groups
   whose header write reached the disk, and the ids of groups whose commit returned.
   */
  datatype State = State(
    disk: Disk, blocks: seq<nat>, cache: map<nat, Block>, open: map<OpId, nat>, phase: Phase,
    group: Group, owner: map<OpId, nat>, committed: seq<Group>, returned: set<nat>)

  datatype Event =
    | BeginOp(op: OpId)
    | LogWrite(op: OpId, bno: nat, data: Block)
    | EndOp(op: OpId)
    | DiskWrite
    | CommitReturns
    | RecoveryReturns
    | Crash
    | Reboot

  /** begin_op's test that the log can take one more operation. */
  predicate CanReserve(n: nat, outstanding: nat) {
    n + (outstanding + 1) * MAXOPBLOCKS <= LOGSIZE
  }

  /** log_write's absorption: record the block number unless it is already there. */
  function Absorb(blocks: seq<nat>, bno: nat): (r: seq<nat>) {
    if bno in blocks then blocks else blocks + [bno]
  }

  /** The disk writes of the current phase. */
  ghost function Script(g: Geometry, s: State): (ws: seq<BlockWrite>)
    requires s.phase.Committing? ==> CanCommit(g, s.phase.base, s.blocks, s.cache)
    requires s.phase.Recovering? ==> GoodDisk(g, s.phase.base)
  {
    match s.phase
    case Committing(base, _, _) => CommitWrites(g, base, s.blocks, s.cache)
    case Recovering(base, _) => RecoverWrites(g, base)
    case _ => []
  }

  ghost predicate ScriptDefined(g: Geometry, s: State) {
    && (s.phase.Committing? ==> CanCommit(g, s.phase.base, s.blocks, s.cache))
    && (s.phase.Recovering? ==> GoodDisk(g, s.phase.base))
  }

  ghost predicate Enabled(g: Geometry, s: State, e: Event) {
    match e
    case BeginOp(op) => s.phase == Running && op !in s.owner && CanReserve(|s.blocks|, |s.open|)
    case LogWrite(op, bno, _) =>
      // an operation adds at most MAXOPBLOCKS entries, all outside the log
      s.phase == Running && op in s.open && g.IsHome(bno) && (bno in s.blocks || s.open[op] < MAXOPBLOCKS)
    case EndOp(op) => s.phase == Running && op in s.open
    case DiskWrite =>
      (s.phase.Committing? || s.phase.Recovering?) && ScriptDefined(g, s) && s.phase.done < |Script(g, s)|
    case CommitReturns => s.phase.Committing? && ScriptDefined(g, s) && s.phase.done == |Script(g, s)|
    case RecoveryReturns => s.phase.Recovering? && ScriptDefined(g, s) && s.phase.done == |Script(g, s)|
    case Crash => s.phase != Down
    case Reboot => s.phase == Down
  }

  /** The state once a group is finished with, one way or the other. */
  function Fresh(s: State, phase: Phase): (t: State) {
    s.(blocks := [], cache := map[], open := map[], phase := phase, group := Group(s.group.id + 1, []))
  }

  ghost function Do(g: Geometry, s: State, e: Event): (t: State)
    requires g.Valid() && Enabled(g, s, e)
  {
    match e
    case BeginOp(op) => s.(open := s.open[op := 0], owner := s.owner[op := s.group.id])
    case LogWrite(op, bno, data) =>
      if |s.blocks| >= g.Capacity() then s.(phase := Panicked)
      else s.(
        blocks := Absorb(s.blocks, bno),
        cache := s.cache[bno := data],
        open := if bno in s.blocks then s.open else s.open[op := s.open[op] + 1],
        group := Group(s.group.id, s.group.writes + [OpWrite(op, bno, data)]))
    case EndOp(op) =>
      var open := s.open - {op};
      s.(open := open, phase := if open == map[] then Committing(s.disk, 0, s.committed) else Running)
    case DiskWrite =>
      var w := Script(g, s)[s.phase.done];
      s.(disk := Apply(s.disk, [w]),
         phase := s.phase.(done := s.phase.done + 1),
         // write number n of a commit is the header
         committed := if s.phase.Committing? && s.phase.done == |s.blocks|
                      then s.committed + [s.group] else s.committed)
    case CommitReturns =>
      // a commit without entries writes nothing
      Fresh(s.(committed := if s.blocks == [] then s.committed + [s.group] else s.committed,
               returned := s.returned + {s.group.id}), Running)
    case RecoveryReturns => s.(phase := Running)
    case Crash => Fresh(s, Down)
    case Reboot => s.(phase := Recovering(s.disk, 0))
  }

  ghost function Boot(d: Disk): (s: State) {
    State(d, [], map[], map[], Running, Group(0, []), map[], [], {})
  }

  /** t is reached from s by the events es. */
  ghost predicate Reaches(g: Geometry, s: State, es: seq<Event>, t: State)
    requires g.Valid()
  {
    if es == [] then s == t
    else
      var last := |es| - 1;
      exists u :: Reaches(g, s, es[..last], u) && Enabled(g, u, es[last]) && t == Do(g, u, es[last])
  }

  lemma ReachesNone(g: Geometry, s: State)
    requires g.Valid()
    ensures Reaches(g, s, [], s)
  {
  }

  lemma ReachesMore(g: Geometry, s: State, es: seq<Event>, t: State, e: Event)
    requires g.Valid() && Reaches(g, s, es, t) && Enabled(g, t, e)
    ensures Reaches(g, s, es + [e], Do(g, t, e))
  {
    hide Do, Enabled;
    assert (es + [e])[..|es|] == es;
  }

  // ---------------------------------------------------------------- meaning of the history

  /** The file system after the writes ws, one by one. */
  ghost function Replay(h: map<nat, Block>, ws: seq<OpWrite>): (r: map<nat, Block>) {
    if ws == [] then h
    else Replay(h, ws[..|ws| - 1])[ws[|ws| - 1].bno := ws[|ws| - 1].data]
  }

  /** The file system after whole groups, one by one. */
  ghost function ReplayGroups(h: map<nat, Block>, gs: seq<Group>): (r: map<nat, Block>) {
    if gs == [] then h else Replay(ReplayGroups(h, gs[..|gs| - 1]), gs[|gs| - 1].writes)
  }

  lemma {:induction false} ReplayMerges(h: map<nat, Block>, ws: seq<OpWrite>)
    ensures Replay(h, ws) == h + Replay(map[], ws)
  {
    if ws != [] {
      ReplayMerges(h, ws[..|ws| - 1]);
    }
  }

  // ---------------------------------------------------------------- log space

  /** The entries that open operations may still add. */
  ghost function Unused(open: map<OpId, nat>): (r: int) {
    if open == map[] then 0
    else
      var op :| op in open;
      MAXOPBLOCKS - open[op] + Unused(open - {op})
  }

  lemma {:induction false} UnusedRemove(open: map<OpId, nat>, op: OpId)
    requires op in open
    ensures Unused(open) == MAXOPBLOCKS - open[op] + Unused(open - {op})
    decreases |open|
  {
    var q :| q in open && Unused(open) == MAXOPBLOCKS - open[q] + Unused(open - {q});
    if q != op {
      UnusedRemove(open - {q}, op);
      UnusedRemove(open - {op}, q);
      assert open - {q} - {op} == open - {op} - {q};
    }
  }

  lemma UnusedUpdate(open: map<OpId, nat>, op: OpId, n: nat)
    ensures Unused(open[op := n]) == MAXOPBLOCKS - n + Unused(open - {op})
  {
    UnusedRemove(open[op := n], op);
    assert open[op := n] - {op} == open - {op};
  }

  lemma NothingUnused()
    ensures Unused(map[]) == 0
  {
  }

  lemma {:induction false} UnusedBound(open: map<OpId, nat>)
    requires forall op :: op in open ==> open[op] <= MAXOPBLOCKS
    ensures 0 <= Unused(open) <= |open| * MAXOPBLOCKS
    decreases |open|
  {
    if open != map[] {
      var op :| op in open;
      UnusedRemove(open, op);
      UnusedBound(open - {op});
    }
  }

  // ---------------------------------------------------------------- invariants

  /** Log space: entries made plus entries still reserved fit, and entries are distinct. */
  ghost predicate SpaceInv(s: State) {
    && (forall op :: op in s.open ==> s.open[op] <= MAXOPBLOCKS)
    && |s.blocks| + Unused(s.open) <= LOGSIZE
    && (forall i, j :: 0 <= i < j < |s.blocks| ==> s.blocks[i] != s.blocks[j])
  }

  /** The pinned buffers hold exactly what the current group wrote. */
  ghost predicate MemoryInv(g: Geometry, s: State) {
    && GoodBlocks(g, s.blocks)
    && s.cache == Replay(map[], s.group.writes)
    && (forall b :: b in s.cache <==> b in s.blocks)
  }

  /** No operation is open except in normal running (or when the machine halted in it). */
  ghost predicate QuietInv(s: State) {
    && (s.phase.Committing? || s.phase.Recovering? || s.phase.Down? ==> s.open == map[])
    && (s.phase.Recovering? || s.phase.Down? ==> s.blocks == [] && s.group.writes == [])
  }

  /** What holds on disk in each phase. */
  ghost predicate PhaseInv(g: Geometry, h: map<nat, Block>, s: State)
    requires GoodDisk(g, s.disk)
  {
    match s.phase
    case Running => s.disk[g.start].w[0] == 0
    case Committing(base, k, prior) =>
      && CanCommit(g, base, s.blocks, s.cache) && base[g.start].w[0] == 0
      && k <= |Script(g, s)| && s.disk == Apply(base, Script(g, s)[..k])
      && Home(g, base) == ReplayGroups(h, prior)
      && s.committed == prior + (if k <= |s.blocks| then [] else [s.group])
    case Recovering(base, k) =>
      GoodDisk(g, base) && k <= |Script(g, s)| && s.disk == Apply(base, Script(g, s)[..k])
    case _ => true
  }

  /** The file system on disk is the one after the committed groups, whatever the phase. */
  ghost predicate DiskInv(g: Geometry, h: map<nat, Block>, s: State) {
    && GoodDisk(g, s.disk)
    && Recovered(g, s.disk) == ReplayGroups(h, s.committed)
    && PhaseInv(g, h, s)
  }

  /** The current group is not among the committed ones. */
  ghost predicate Uncommitted(s: State) {
    s.phase.Committing? ==> s.phase.done <= |s.blocks|
  }

  /** An operation's writes all lie in the group it belongs to. */
  ghost predicate OwnerInv(s: State) {
    && (forall op :: op in s.open ==> op in s.owner && s.owner[op] == s.group.id)
    && (forall op :: op in s.owner ==> s.owner[op] <= s.group.id)
    && Owned(s.owner, s.group)
    && (forall i :: 0 <= i < |s.committed| ==> Owned(s.owner, s.committed[i]))
  }

  /** Groups are numbered in commit order, and every commit that returned is among them. */
  ghost predicate OrderInv(s: State) {
    && (forall i, j :: 0 <= i < j < |s.committed| ==> s.committed[i].id < s.committed[j].id)
    && (forall i :: 0 <= i < |s.committed| ==>
          s.committed[i].id < s.group.id || (s.committed[i].id == s.group.id && !Uncommitted(s)))
    && (forall id :: id in s.returned ==> Holds(s.committed, id))
  }

  ghost predicate Owned(owner: map<OpId, nat>, gr: Group) {
    forall w :: w in gr.writes ==> w.op in owner && owner[w.op] == gr.id
  }

  ghost predicate Holds(gs: seq<Group>, id: nat) {
    exists i :: 0 <= i < |gs| && gs[i].id == id
  }

  ghost predicate Inv(g: Geometry, h: map<nat, Block>, s: State) {
    g.Valid() && SpaceInv(s) && MemoryInv(g, s) && QuietInv(s) && DiskInv(g, h, s) && OwnerInv(s) && OrderInv(s)
  }

  lemma BootInv(g: Geometry, d: Disk)
    requires GoodDisk(g, d) && d[g.start].w[0] == 0
    ensures Inv(g, Home(g, d), Boot(d))
    ensures forall op :: WholeInv(Boot(d), [], op)
  {
    CleanRecovers(g, d);
  }

  lemma SpaceBegin(g: Geometry, s: State, op: OpId)
    requires g.Valid() && SpaceInv(s) && Enabled(g, s, BeginOp(op))
    ensures SpaceInv(Do(g, s, BeginOp(op)))
  {
    hide Unused;
    UnusedBound(s.open);
    UnusedUpdate(s.open, op, 0);
    if op in s.open {
      UnusedRemove(s.open, op);
    } else {
      assert s.open - {op} == s.open;
    }
  }

  lemma SpaceWrite(g: Geometry, s: State, op: OpId, bno: nat, data: Block)
    requires g.Valid() && SpaceInv(s) && Enabled(g, s, LogWrite(op, bno, data))
    ensures SpaceInv(Do(g, s, LogWrite(op, bno, data)))
  {
    hide Unused;
    UnusedRemove(s.open, op);
    UnusedUpdate(s.open, op, s.open[op] + 1);
  }

  lemma SpaceEnd(g: Geometry, s: State, op: OpId)
    requires g.Valid() && SpaceInv(s) && Enabled(g, s, EndOp(op))
    ensures SpaceInv(Do(g, s, EndOp(op)))
  {
    hide Unused;
    UnusedRemove(s.open, op);
  }

  lemma SpaceOther(g: Geometry, s: State, e: Event)
    requires g.Valid() && SpaceInv(s) && Enabled(g, s, e) && !e.BeginOp? && !e.LogWrite? && !e.EndOp?
    ensures SpaceInv(Do(g, s, e))
  {
    hide Unused, Script, ScriptDefined, Apply;
    NothingUnused();
  }

  lemma SpaceStep(g: Geometry, s: State, e: Event)
    requires g.Valid() && SpaceInv(s) && Enabled(g, s, e)
    ensures SpaceInv(Do(g, s, e))
  {
    hide SpaceInv, Enabled, Do;
    match e
    case BeginOp(op) => SpaceBegin(g, s, op);
    case LogWrite(op, bno, data) => SpaceWrite(g, s, op, bno, data);
    case EndOp(op) => SpaceEnd(g, s, op);
    case _ => SpaceOther(g, s, e);
  }

  lemma AbsorbGood(g: Geometry, blocks: seq<nat>, bno: nat)
    requires GoodBlocks(g, blocks) && |blocks| < g.Capacity() && g.IsHome(bno)
    ensures GoodBlocks(g, Absorb(blocks, bno))
    ensures forall b :: b in Absorb(blocks, bno) <==> b in blocks || b == bno
  {
  }

  lemma ReplaySnoc(h: map<nat, Block>, ws: seq<OpWrite>, w: OpWrite)
    ensures Replay(h, ws + [w]) == Replay(h, ws)[w.bno := w.data]
  {
    assert (ws + [w])[..|ws|] == ws;
  }

  lemma MemoryStep(g: Geometry, s: State, e: Event)
    requires g.Valid() && MemoryInv(g, s) && Enabled(g, s, e)
    ensures MemoryInv(g, Do(g, s, e))
  {
    if e.LogWrite? && |s.blocks| < g.Capacity() {
      AbsorbGood(g, s.blocks, e.bno);
      ReplaySnoc(map[], s.group.writes, OpWrite(e.op, e.bno, e.data));
    }
  }

  lemma QuietStep(g: Geometry, s: State, e: Event)
    requires g.Valid() && QuietInv(s) && Enabled(g, s, e)
    ensures QuietInv(Do(g, s, e))
  {
  }

  lemma OwnerStep(g: Geometry, s: State, e: Event)
    requires g.Valid() && OwnerInv(s) && Enabled(g, s, e)
    ensures OwnerInv(Do(g, s, e))
  {
    hide Script, ScriptDefined, Apply;
  }

  lemma HoldsMore(gs: seq<Group>, hs: seq<Group>, id: nat)
    requires Holds(gs, id)
    ensures Holds(gs + hs, id)
  {
    var i :| 0 <= i < |gs| && gs[i].id == id;
    assert (gs + hs)[i].id == id;
  }

  lemma OrderStep(g: Geometry, s: State, e: Event)
    requires g.Valid() && OrderInv(s) && Enabled(g, s, e)
    requires !Uncommitted(s) ==> Holds(s.committed, s.group.id)
    ensures OrderInv(Do(g, s, e))
  {
    var t := Do(g, s, e);
    if e.DiskWrite? || e.CommitReturns? {
      var more := if t.committed == s.committed then [] else [s.group];
      assert t.committed == s.committed + more;
      forall id | id in s.returned ensures Holds(t.committed, id) {
        HoldsMore(s.committed, more, id);
      }
      if e.CommitReturns? && s.blocks == [] {
        assert t.committed[|s.committed|].id == s.group.id;
      }
    }
  }

  lemma ApplyNothing(d: Disk, ws: seq<BlockWrite>)
    ensures Apply(d, ws[..0]) == d
  {
  }

  /** The next block write of a phase's script. */
  lemma ScriptStep(base: Disk, ws: seq<BlockWrite>, k: nat)
    requires k < |ws|
    ensures Apply(Apply(base, ws[..k]), [ws[k]]) == Apply(base, ws[..k + 1])
  {
    assert ws[..k + 1] == ws[..k] + [ws[k]];
    ApplyConcat(base, ws[..k], [ws[k]]);
  }

  lemma ReplayGroupsSnoc(h: map<nat, Block>, gs: seq<Group>, gr: Group)
    ensures ReplayGroups(h, gs + [gr]) == ReplayGroups(h, gs) + Replay(map[], gr.writes)
  {
    assert (gs + [gr])[..|gs|] == gs;
    ReplayMerges(ReplayGroups(h, gs), gr.writes);
  }

  /** The updates a commit makes are the writes of the group. */
  lemma GroupUpdates(g: Geometry, s: State, d: Disk)
    requires MemoryInv(g, s) && CanCommit(g, d, s.blocks, s.cache)
    ensures Updates(s.blocks, s.cache) == Replay(map[], s.group.writes)
    ensures s.blocks == [] ==> Replay(map[], s.group.writes) == map[]
  {
  }

  lemma RecoverWriteStep(g: Geometry, h: map<nat, Block>, s: State)
    requires g.Valid() && DiskInv(g, h, s) && s.phase.Recovering? && Enabled(g, s, DiskWrite)
    ensures DiskInv(g, h, Do(g, s, DiskWrite))
  {
    hide CommitWrites, RecoverWrites, Recovered, Apply, Home, Updates;
    var t := Do(g, s, DiskWrite);
    var k := s.phase.done;
    ScriptStep(s.phase.base, Script(g, s), k);
    RecoverPrefix(g, s.phase.base, k, s.disk);
    RecoverPrefix(g, s.phase.base, k + 1, t.disk);
  }

  lemma CommitWriteStep(g: Geometry, h: map<nat, Block>, s: State)
    requires g.Valid() && DiskInv(g, h, s) && MemoryInv(g, s)
    requires s.phase.Committing? && Enabled(g, s, DiskWrite)
    ensures DiskInv(g, h, Do(g, s, DiskWrite))
  {
    hide CommitWrites, Recovered, Apply, Home, GoodDisk, CanCommit, Updates, MemoryInv, Replay, ReplayGroups;
    var t := Do(g, s, DiskWrite);
    var k := s.phase.done;
    var prior := s.phase.prior;
    ScriptStep(s.phase.base, Script(g, s), k);
    CommitPrefix(g, s.phase.base, s.blocks, s.cache, k + 1, t.disk);
    assert prior + [] == prior;
    GroupUpdates(g, s, s.phase.base);
    ReplayGroupsSnoc(h, prior, s.group);
    assert t.committed == prior + (if k + 1 <= |s.blocks| then [] else [s.group]);
    assert PhaseInv(g, h, t);
  }

  lemma CommitReturnsStep(g: Geometry, h: map<nat, Block>, s: State)
    requires g.Valid() && DiskInv(g, h, s) && MemoryInv(g, s)
    requires Enabled(g, s, CommitReturns)
    ensures DiskInv(g, h, Do(g, s, CommitReturns))
  {
    hide CommitWrites, Recovered, Apply, Home, CanCommit, Updates, MemoryInv, Replay, ReplayGroups;
    CommitPrefix(g, s.phase.base, s.blocks, s.cache, s.phase.done, s.disk);
    if s.blocks == [] {
      GroupUpdates(g, s, s.phase.base);
      ReplayGroupsSnoc(h, s.committed, s.group);
    }
  }

  lemma EndOpStep(g: Geometry, h: map<nat, Block>, s: State, op: OpId)
    requires g.Valid() && DiskInv(g, h, s) && MemoryInv(g, s) && Enabled(g, s, EndOp(op))
    ensures DiskInv(g, h, Do(g, s, EndOp(op)))
  {
    hide CommitWrites, RecoverWrites, Recovered, Home, Updates;
    CleanRecovers(g, s.disk);
    assert s.committed + [] == s.committed;
  }

  lemma DiskStep(g: Geometry, h: map<nat, Block>, s: State, e: Event)
    requires g.Valid() && DiskInv(g, h, s) && MemoryInv(g, s) && Enabled(g, s, e)
    ensures DiskInv(g, h, Do(g, s, e))
  {
    hide CommitWrites, RecoverWrites, Recovered, Apply, Home, Updates;
    match e
    case DiskWrite =>
      if s.phase.Recovering? {
        RecoverWriteStep(g, h, s);
      } else {
        CommitWriteStep(g, h, s);
      }
    case EndOp(_) => EndOpStep(g, h, s, e.op);
    case CommitReturns => CommitReturnsStep(g, h, s);
    case RecoveryReturns => RecoverPrefix(g, s.phase.base, s.phase.done, s.disk);
    case Reboot => ApplyNothing(s.disk, RecoverWrites(g, s.disk));
    case _ =>
  }

  // ---------------------------------------------------------------- whole operations

  /** The writes of op among ws. */
  ghost function WritesBy(ws: seq<OpWrite>, op: OpId): (r: seq<OpWrite>) {
    if ws == [] then []
    else WritesBy(ws[..|ws| - 1], op) + (if ws[|ws| - 1].op == op then [ws[|ws| - 1]] else [])
  }

  /** The writes op made in a run. */
  ghost function WritesIn(es: seq<Event>, op: OpId): (r: seq<OpWrite>) {
    if es == [] then []
    else
      var e := es[|es| - 1];
      WritesIn(es[..|es| - 1], op)
      + (if e.LogWrite? && e.op == op then [OpWrite(op, e.bno, e.data)] else [])
  }

  /** The group of op holds all that op ever wrote, if the group is committed or current. */
  ghost predicate WholeInv(s: State, es: seq<Event>, op: OpId) {
    if op !in s.owner then WritesIn(es, op) == []
    else
      && (s.phase != Panicked && s.owner[op] == s.group.id ==>
            WritesBy(s.group.writes, op) == WritesIn(es, op))
      && (forall i :: 0 <= i < |s.committed| && s.committed[i].id == s.owner[op] ==>
            WritesBy(s.committed[i].writes, op) == WritesIn(es, op))
  }

  lemma WritesSnoc(ws: seq<OpWrite>, w: OpWrite, op: OpId)
    ensures WritesBy(ws + [w], op) == WritesBy(ws, op) + (if w.op == op then [w] else [])
  {
    assert (ws + [w])[..|ws|] == ws;
  }

  lemma {:induction false} NoWrites(owner: map<OpId, nat>, gr: Group, op: OpId)
    requires Owned(owner, gr) && (op in owner ==> owner[op] != gr.id)
    ensures WritesBy(gr.writes, op) == []
    decreases |gr.writes|
  {
    if gr.writes != [] {
      NoWrites(owner, Group(gr.id, gr.writes[..|gr.writes| - 1]), op);
    }
  }

  lemma WritesInSnoc(es: seq<Event>, e: Event, op: OpId)
    ensures WritesIn(es + [e], op)
         == WritesIn(es, op) + (if e.LogWrite? && e.op == op then [OpWrite(op, e.bno, e.data)] else [])
  {
    assert (es + [e])[..|es|] == es;
  }

  lemma WholeStep(g: Geometry, s: State, es: seq<Event>, e: Event, op: OpId)
    requires g.Valid() && OwnerInv(s) && OrderInv(s) && WholeInv(s, es, op) && Enabled(g, s, e)
    requires !Uncommitted(s) ==> s.committed != [] && s.committed[|s.committed| - 1] == s.group
    ensures WholeInv(Do(g, s, e), es + [e], op)
  {
    hide Script, ScriptDefined, WritesBy, WritesIn, Apply;
    var t := Do(g, s, e);
    WritesInSnoc(es, e, op);
    if e.LogWrite? {
      WritesSnoc(s.group.writes, OpWrite(e.op, e.bno, e.data), op);
    } else if e.BeginOp? && op !in s.owner {
      NoWrites(s.owner, s.group, op);
    }
  }

  // ---------------------------------------------------------------- theorems over runs

  lemma Step(g: Geometry, h: map<nat, Block>, s: State, e: Event)
    requires Inv(g, h, s) && Enabled(g, s, e)
    ensures Inv(g, h, Do(g, s, e))
  {
    hide Do, Enabled, SpaceInv, MemoryInv, QuietInv, OwnerInv, OrderInv, DiskInv;
    if !Uncommitted(s) {
      CommittingLast(g, h, s);
    }
    SpaceStep(g, s, e);
    MemoryStep(g, s, e);
    QuietStep(g, s, e);
    DiskStep(g, h, s, e);
    OwnerStep(g, s, e);
    OrderStep(g, s, e);
  }

  /** Once the header write is done the group being committed is the last committed one. */
  lemma CommittingLast(g: Geometry, h: map<nat, Block>, s: State)
    requires DiskInv(g, h, s) && !Uncommitted(s)
    ensures s.committed != [] && s.committed[|s.committed| - 1] == s.group
    ensures Holds(s.committed, s.group.id)
  {
  }

  lemma {:induction false} RunInv(g: Geometry, d: Disk, es: seq<Event>, s: State)
    requires GoodDisk(g, d) && d[g.start].w[0] == 0 && Reaches(g, Boot(d), es, s)
    ensures Inv(g, Home(g, d), s)
    ensures forall op :: WholeInv(s, es, op)
  {
    hide Inv, Home, Enabled, Do, WholeInv, Boot;
    if es == [] {
      BootInv(g, d);
    } else {
      var last := |es| - 1;
      var u :| Reaches(g, Boot(d), es[..last], u) && Enabled(g, u, es[last]) && s == Do(g, u, es[last]);
      RunInv(g, d, es[..last], u);
      Step(g, Home(g, d), u, es[last]);
      forall op ensures WholeInv(s, es, op) {
        assert es == es[..last] + [es[last]];
        WholeRunStep(g, Home(g, d), u, es[..last], es[last], op);
      }
    }
  }

  lemma WholeRunStep(g: Geometry, h: map<nat, Block>, s: State, es: seq<Event>, e: Event, op: OpId)
    requires Inv(g, h, s) && WholeInv(s, es, op) && Enabled(g, s, e)
    ensures WholeInv(Do(g, s, e), es + [e], op)
  {
    if !Uncommitted(s) {
      CommittingLast(g, h, s);
    }
    WholeStep(g, s, es, e, op);
  }

  /**
   Crash atomicity and durability. After any run, with crashes between any two block writes of
   commits and of recoveries, recovering the disk yields the initial file system with the
   committed groups replayed whole, one after the other; and every group whose commit returned
   is among them.
   */
  lemma CrashSafety(g: Geometry, d: Disk, es: seq<Event>, s: State)
    requires GoodDisk(g, d) && d[g.start].w[0] == 0 && Reaches(g, Boot(d), es, s)
    ensures GoodDisk(g, s.disk)
    ensures Recovered(g, s.disk) == ReplayGroups(Home(g, d), s.committed)
    ensures forall id :: id in s.returned ==> Holds(s.committed, id)
  {
    RunInv(g, d, es, s);
  }

  /**
   Operations are atomic too: a committed group that has one write of an operation has all
   the writes that operation ever made, no other committed group has any of them, and outside a
   commit the operation is no longer open.
   */
  lemma CommittedOpsAreWhole(g: Geometry, d: Disk, es: seq<Event>, s: State, i: nat, w: OpWrite)
    requires GoodDisk(g, d) && d[g.start].w[0] == 0 && Reaches(g, Boot(d), es, s)
    requires i < |s.committed| && w in s.committed[i].writes
    ensures WritesBy(s.committed[i].writes, w.op) == WritesIn(es, w.op)
    ensures forall j :: 0 <= j < |s.committed| && j != i ==> WritesBy(s.committed[j].writes, w.op) == []
    ensures w.op !in s.open
  {
    RunInv(g, d, es, s);
    hide Inv, DiskInv, SpaceInv, MemoryInv, WritesBy, WritesIn;
    CommittedOpsFrom(g, Home(g, d), s, es, i, w);
  }

  lemma CommittedOpsFrom(g: Geometry, h: map<nat, Block>, s: State, es: seq<Event>, i: nat, w: OpWrite)
    requires Inv(g, h, s) && WholeInv(s, es, w.op)
    requires i < |s.committed| && w in s.committed[i].writes
    ensures WritesBy(s.committed[i].writes, w.op) == WritesIn(es, w.op)
    ensures forall j :: 0 <= j < |s.committed| && j != i ==> WritesBy(s.committed[j].writes, w.op) == []
    ensures w.op !in s.open
  {
    assert Owned(s.owner, s.committed[i]);
    forall j | 0 <= j < |s.committed| && j != i ensures WritesBy(s.committed[j].writes, w.op) == [] {
      NoWrites(s.owner, s.committed[j], w.op);
    }
  }

  /**
   Log space. In every reachable state the entries made plus the entries that open operations
   may still make fit in LOGSIZE, the entries are distinct home blocks and fit in the log on
   disk, and no operation is open while a commit or a recovery runs.
   */
  lemma Reservation(g: Geometry, d: Disk, es: seq<Event>, s: State)
    requires GoodDisk(g, d) && d[g.start].w[0] == 0 && Reaches(g, Boot(d), es, s)
    ensures 0 <= Unused(s.open) && |s.blocks| + Unused(s.open) <= LOGSIZE
    ensures GoodBlocks(g, s.blocks)
    ensures s.phase.Committing? || s.phase.Recovering? ==> s.open == map[]
  {
    RunInv(g, d, es, s);
    UnusedBound(s.open);
  }

  lemma CanGoOn(g: Geometry, h: map<nat, Block>, s: State)
    requires DiskInv(g, h, s)
    ensures s.phase.Committing? ==> Enabled(g, s, DiskWrite) || Enabled(g, s, CommitReturns)
    ensures s.phase.Recovering? ==> Enabled(g, s, DiskWrite) || Enabled(g, s, RecoveryReturns)
  {
    hide Apply, Recovered, CommitWrites, RecoverWrites, Home, ReplayGroups, CanCommit, GoodDisk;
  }

  /** Commits and recoveries can always go on to their end: no reachable state is stuck in one. */
  lemma Progress(g: Geometry, d: Disk, es: seq<Event>, s: State)
    requires GoodDisk(g, d) && d[g.start].w[0] == 0 && Reaches(g, Boot(d), es, s)
    ensures s.phase.Committing? ==> Enabled(g, s, DiskWrite) || Enabled(g, s, CommitReturns)
    ensures s.phase.Recovering? ==> Enabled(g, s, DiskWrite) || Enabled(g, s, RecoveryReturns)
  {
    hide Enabled, DiskInv, Home, Reaches;
    RunInv(g, d, es, s);
    CanGoOn(g, Home(g, d), s);
  }

  lemma HistoryGrows(g: Geometry, s: State, e: Event)
    requires g.Valid() && Enabled(g, s, e)
    ensures s.committed <= Do(g, s, e).committed && s.returned <= Do(g, s, e).returned
  {
    hide Script, Apply, ScriptDefined;
  }

  /** What is committed, and what has returned, stays so for ever. */
  lemma {:induction false} CommittedForEver(g: Geometry, s: State, es: seq<Event>, t: State)
    requires g.Valid() && Reaches(g, s, es, t)
    ensures s.committed <= t.committed && s.returned <= t.returned
  {
    hide Do, Enabled;
    if es != [] {
      var last := |es| - 1;
      var u :| Reaches(g, s, es[..last], u) && Enabled(g, u, es[last]) && t == Do(g, u, es[last]);
      CommittedForEver(g, s, es[..last], u);
      HistoryGrows(g, u, es[last]);
    }
  }

  // ---------------------------------------------------------------- who may begin, and who commits

  /** Nothing is left in the log once no operation is open. */
  ghost predicate IdleInv(s: State) {
    && (s.phase.Running? && s.open == map[] ==> s.blocks == [])
    && (s.phase.Recovering? || s.phase.Down? ==> s.blocks == [] && s.open == map[])
  }

  lemma IdleStep(g: Geometry, s: State, e: Event)
    requires g.Valid() && IdleInv(s) && Enabled(g, s, e)
    ensures IdleInv(Do(g, s, e))
  {
    hide Apply, Script, Absorb;
    if e.LogWrite? {
      assert e.op in Do(g, s, e).open;
    } else if e.BeginOp? {
      assert e.op in Do(g, s, e).open;
    }
  }

  lemma {:induction false} IdleRun(g: Geometry, d: Disk, es: seq<Event>, s: State)
    requires g.Valid() && Reaches(g, Boot(d), es, s)
    ensures IdleInv(s)
  {
    hide IdleInv, Enabled, Do;
    if es == [] {
      IdleBoot(d);
    } else {
      var last := |es| - 1;
      var u :| Reaches(g, Boot(d), es[..last], u) && Enabled(g, u, es[last]) && s == Do(g, u, es[last]);
      IdleRun(g, d, es[..last], u);
      IdleStep(g, u, es[last]);
    }
  }

  lemma IdleBoot(d: Disk)
    ensures IdleInv(Boot(d))
  {
  }

  /**
   In every reachable state that is running: a new operation may begin exactly if its reservation
   fits beside the entries made and the reservations of those open; with none open it always may.
   An operation that ends starts the commit exactly if no other is open.
   */
  lemma BeginsAndCommits(g: Geometry, d: Disk, es: seq<Event>, s: State, op: OpId)
    requires g.Valid() && Reaches(g, Boot(d), es, s) && s.phase == Running
    ensures op !in s.owner ==>
      && (Enabled(g, s, BeginOp(op)) <==> |s.blocks| + MAXOPBLOCKS * |s.open| + MAXOPBLOCKS <= LOGSIZE)
      && (s.open == map[] ==> Enabled(g, s, BeginOp(op)))
    ensures op in s.open ==>
      && Enabled(g, s, EndOp(op)) && Do(g, s, EndOp(op)).open == s.open - {op}
      && (Do(g, s, EndOp(op)).phase.Committing? <==> s.open.Keys == {op})
      && (s.open.Keys != {op} ==> Do(g, s, EndOp(op)).phase == Running)
  {
    IdleRun(g, d, es, s);
    if op in s.open {
      assert s.open.Keys == (s.open - {op}).Keys + {op};
      assert (s.open - {op}).Keys == {} <==> s.open - {op} == map[];
    }
  }

  // ---------------------------------------------------------------- the size guard

  /** The geometry mkfs lays out: nlog == LOGSIZE blocks from block 2, header included. */
  const XV6 := Geometry(2, LOGSIZE, 1000)

  /** Event n of the run of three operations that write ten blocks each. */
  ghost function FullEvent(n: nat, b: Block): (e: Event) {
    if n < 3 then BeginOp(n) else LogWrite((n - 3) / 10, 97 + n, b)
  }

  ghost function FullEvents(n: nat, b: Block): (es: seq<Event>)
    ensures |es| == n
  {
    if n == 0 then [] else FullEvents(n - 1, b) + [FullEvent(n - 1, b)]
  }

  /** How many blocks operation op has logged after n events. */
  ghost function Logged(n: nat, op: nat): (k: nat) {
    if n < 3 + 10 * op then 0 else if n < 13 + 10 * op then n - 3 - 10 * op else 10
  }

  /** The state after n events. */
  ghost predicate FullState(s: State, n: nat) {
    && s.phase == Running
    && (forall op: nat :: op in s.owner <==> op < n && op < 3)
    && (forall op: nat :: op in s.open <==> op < n && op < 3)
    && |s.blocks| == (if n < 3 then 0 else n - 3)
    && (forall i :: 0 <= i < |s.blocks| ==> s.blocks[i] == 100 + i)
    && (forall op: nat :: op in s.open ==> s.open[op] == Logged(n, op))
  }

  lemma FullBegin(s: State, n: nat, b: Block)
    requires n < 3 && FullState(s, n)
    ensures Enabled(XV6, s, FullEvent(n, b)) && FullState(Do(XV6, s, FullEvent(n, b)), n + 1)
  {
    hide Script, ScriptDefined;
    OpenCount(s.open, n);
  }

  lemma FullWrite(s: State, n: nat, b: Block)
    requires 3 <= n < 32 && FullState(s, n)
    ensures Enabled(XV6, s, FullEvent(n, b)) && FullState(Do(XV6, s, FullEvent(n, b)), n + 1)
  {
    hide Script, ScriptDefined;
    var op := (n - 3) / 10;
    var t := s.open[op := s.open[op] + 1];
    assert op in s.open && s.open[op] == n - 3 - 10 * op < 10;
    forall q: nat | q in t ensures t[q] == Logged(n + 1, q) {}
    assert 97 + n !in s.blocks;
  }

  lemma FullStart(d: Disk)
    ensures FullState(Boot(d), 0)
  {
  }

  lemma {:induction false} FullRun(d: Disk, b: Block, n: nat) returns (s: State)
    requires n <= 32
    ensures Reaches(XV6, Boot(d), FullEvents(n, b), s) && FullState(s, n)
  {
    hide Do, Enabled, FullState, FullEvent, Boot;
    if n == 0 {
      s := Boot(d);
      FullStart(d);
    } else {
      var u := FullRun(d, b, n - 1);
      if n <= 3 {
        FullBegin(u, n - 1, b);
      } else {
        FullWrite(u, n - 1, b);
      }
      s := Do(XV6, u, FullEvent(n - 1, b));
      assert FullEvents(n, b)[..n - 1] == FullEvents(n - 1, b);
    }
  }

  lemma {:induction false} OpenCount(open: map<OpId, nat>, n: nat)
    requires forall op: nat :: op in open <==> op < n
    ensures |open| == n
  {
    if n > 0 {
      var r := open - {n - 1};
      OpenCount(r, n - 1);
      assert r.Keys == open.Keys - {n - 1};
    }
  }

  lemma FullPanics(s: State, b: Block)
    requires FullState(s, 32)
    ensures Enabled(XV6, s, FullEvent(32, b)) && Do(XV6, s, FullEvent(32, b)) == s.(phase := Panicked)
  {
    hide Script, ScriptDefined;
    assert s.open[2] == Logged(32, 2);
  }

  /**
   The reservation does not keep log_write from its size guard: begin_op admits three operations
   of MAXOPBLOCKS blocks each, but the log has one slot less, so the thirtieth entry panics.
   */
  lemma ReservedWritesCanPanic(d: Disk, b: Block) returns (es: seq<Event>, s: State)
    ensures Reaches(XV6, Boot(d), es, s) && s.phase == Panicked
    ensures forall op :: op in s.open ==> s.open[op] <= MAXOPBLOCKS
  {
    var u := FullRun(d, b, 32);
    FullPanics(u, b);
    es := FullEvents(33, b);
    assert es[..32] == FullEvents(32, b);
    s := Do(XV6, u, FullEvent(32, b));
  }

  /** A write of a new block by an operation that has added fewer than k. */
  ghost predicate WithinBudget(s: State, e: Event, k: nat) {
    e.LogWrite? && e.bno !in s.blocks ==> e.op in s.open && s.open[e.op] < k
  }

  /** t is reached from s by events in which no operation adds more than k blocks. */
  ghost predicate ReachesWithin(g: Geometry, s: State, es: seq<Event>, t: State, k: nat)
    requires g.Valid()
  {
    if es == [] then s == t
    else
      var last := |es| - 1;
      exists u :: ReachesWithin(g, s, es[..last], u, k) && Enabled(g, u, es[last]) && WithinBudget(u, es[last], k)
                  && t == Do(g, u, es[last])
  }

  /** With a budget of nine: entries made and still to come leave two of the thirty free. */
  ghost predicate NineInv(s: State) {
    && s.phase != Panicked
    && (s.phase.Recovering? || s.phase.Down? ==> s.blocks == [] && s.open == map[])
    && (s.phase.Running? ==>
          && (s.open == map[] ==> s.blocks == [])
          && (forall op :: op in s.open ==> s.open[op] <= 9)
          && |s.blocks| + Unused(s.open) - |s.open| <= 28)
  }

  /** Operations within nine blocks have more of their ten reserved than they can use. */
  lemma {:induction false} UnusedSpare(open: map<OpId, nat>)
    requires forall op :: op in open ==> open[op] <= 9
    ensures |open| <= Unused(open)
    decreases |open|
  {
    if open != map[] {
      var op :| op in open;
      UnusedRemove(open, op);
      UnusedSpare(open - {op});
      OneFewer(open, op);
    }
  }

  lemma OneFewer(open: map<OpId, nat>, op: OpId)
    requires op in open
    ensures |open - {op}| == |open| - 1
  {
    assert (open - {op}).Keys == open.Keys - {op};
  }

  lemma OneMore(open: map<OpId, nat>, op: OpId, n: nat)
    ensures |open[op := n]| == |open - {op}| + 1
  {
    assert open[op := n].Keys == (open - {op}).Keys + {op};
  }

  lemma NineBegin(s: State, op: OpId)
    requires NineInv(s) && Enabled(XV6, s, BeginOp(op)) && op !in s.open
    ensures NineInv(Do(XV6, s, BeginOp(op)))
  {
    hide Unused, Script, ScriptDefined;
    UnusedBound(s.open);
    UnusedUpdate(s.open, op, 0);
    OneMore(s.open, op, 0);
    assert s.open - {op} == s.open;
    if s.open == map[] {
      NothingUnused();
    } else {
      assert |s.open| >= 1;
    }
  }

  lemma NineWrite(s: State, op: OpId, bno: nat, data: Block)
    requires NineInv(s) && Enabled(XV6, s, LogWrite(op, bno, data)) && WithinBudget(s, LogWrite(op, bno, data), 9)
    ensures NineInv(Do(XV6, s, LogWrite(op, bno, data)))
  {
    hide Unused, Script, ScriptDefined;
    UnusedSpare(s.open);
    UnusedRemove(s.open, op);
    UnusedUpdate(s.open, op, s.open[op] + 1);
    OneMore(s.open, op, s.open[op] + 1);
    OneFewer(s.open, op);
  }

  lemma NineEnd(s: State, op: OpId)
    requires NineInv(s) && Enabled(XV6, s, EndOp(op))
    ensures NineInv(Do(XV6, s, EndOp(op)))
  {
    hide Unused, Script, ScriptDefined, Apply;
    UnusedRemove(s.open, op);
    OneFewer(s.open, op);
  }

  lemma NineOther(s: State, e: Event)
    requires NineInv(s) && Enabled(XV6, s, e) && !e.BeginOp? && !e.LogWrite? && !e.EndOp?
    ensures NineInv(Do(XV6, s, e))
  {
    hide Unused, Script, ScriptDefined, Apply;
    NothingUnused();
  }

  lemma NineStep(s: State, e: Event)
    requires NineInv(s) && Enabled(XV6, s, e) && WithinBudget(s, e, 9) && (e.BeginOp? ==> e.op !in s.open)
    ensures NineInv(Do(XV6, s, e))
  {
    hide NineInv, Enabled, Do;
    match e
    case BeginOp(op) => NineBegin(s, op);
    case LogWrite(op, bno, data) => NineWrite(s, op, bno, data);
    case EndOp(op) => NineEnd(s, op);
    case _ => NineOther(s, e);
  }

  /** Open operations have an owner, so that begin_op never meets one. */
  ghost predicate OpenOwned(s: State) {
    forall op :: op in s.open ==> op in s.owner
  }

  lemma OpenOwnedStep(s: State, e: Event)
    requires OpenOwned(s) && Enabled(XV6, s, e)
    ensures OpenOwned(Do(XV6, s, e))
  {
    hide Script, ScriptDefined, Apply;
  }

  lemma {:induction false} NineRun(d: Disk, es: seq<Event>, s: State, k: nat)
    requires k <= 9 && ReachesWithin(XV6, Boot(d), es, s, k)
    ensures NineInv(s) && OpenOwned(s)
  {
    hide Do, Enabled, NineInv, Boot;
    if es == [] {
      NineBoot(d);
    } else {
      var last := |es| - 1;
      var u :| ReachesWithin(XV6, Boot(d), es[..last], u, k) && Enabled(XV6, u, es[last])
               && WithinBudget(u, es[last], k)
               && s == Do(XV6, u, es[last]);
      NineRun(d, es[..last], u, k);
      assert es[last].BeginOp? ==> es[last].op !in u.open by { BeginFresh(u, es[last]); }
      NineStep(u, es[last]);
      OpenOwnedStep(u, es[last]);
    }
  }

  lemma BeginFresh(s: State, e: Event)
    requires OpenOwned(s) && Enabled(XV6, s, e)
    ensures e.BeginOp? ==> e.op !in s.open
  {
    hide Script, ScriptDefined;
  }

  lemma NineBoot(d: Disk)
    ensures NineInv(Boot(d)) && OpenOwned(Boot(d))
  {
    NothingUnused();
  }

  /** Every run keeps to a budget of ten or more: the reservation enforces it. */
  lemma {:induction false} ReachesTen(d: Disk, es: seq<Event>, s: State, k: nat)
    requires k >= MAXOPBLOCKS && Reaches(XV6, Boot(d), es, s)
    ensures ReachesWithin(XV6, Boot(d), es, s, k)
  {
    hide Do, Boot, Script, ScriptDefined;
    if es != [] {
      var last := |es| - 1;
      var u :| Reaches(XV6, Boot(d), es[..last], u) && Enabled(XV6, u, es[last]) && s == Do(XV6, u, es[last]);
      ReachesTen(d, es[..last], u, k);
      assert WithinBudget(u, es[last], k);
    }
  }

  /**
   Exactly when the size guard of log_write cannot be reached: when no operation adds more
   than nine blocks, one less than begin_op reserves for it.
   */
  lemma GuardUnreachableIff(d: Disk, k: nat)
    ensures (forall es, s :: ReachesWithin(XV6, Boot(d), es, s, k) ==> s.phase != Panicked) <==> k <= 9
  {
    if k <= 9 {
      forall es, s | ReachesWithin(XV6, Boot(d), es, s, k) ensures s.phase != Panicked {
        NineRun(d, es, s, k);
      }
    } else {
      var es, s := ReservedWritesCanPanic(d, Words(seq(WORDS, _ => 0)));
      ReachesTen(d, es, s, k);
    }
  }
}
