/**
 The file system and the log together. Writing and truncating files are transactions, each of
 which changes only blocks it logs; the log commits their block writes in groups. After any run
 with crashes and recoveries the disk holds the volume after a sequence of whole transactions.
 */
module CrashedFiles {
  import opened Volume
  import opened Fs
  import DiskLayout
  import LogDisk
  import LogRuns

  /** A transaction: the volume it found, the volume it left, and the blocks it logged. */
  datatype Txn = Txn(before: Vol, after: Vol, logged: set<nat>)

  /** The disk, and the transactions of a run. */
  datatype Setup = Setup(g: LogDisk.Geometry, sb: Super, txns: map<nat, Txn>)

  /** Every transaction changes only blocks it logs. */
  ghost predicate Sound(x: Setup) {
    x.g.Valid() && forall op :: op in x.txns ==>
                     Framed(x.sb, x.txns[op].before, x.txns[op].after, x.txns[op].logged)
  }

  /** The file-system blocks of a disk that holds v. */
  ghost function Image(x: Setup, v: Vol): (h: map<nat, LogDisk.Block>) {
    DiskLayout.Image(x.g, x.sb, v)
  }

  // ---------------------------------------------------------------- one transaction

  /** The last contents that ws gives block n. */
  ghost function LastTo(ws: seq<LogRuns.OpWrite>, n: nat): (r: seq<LogDisk.Block>) {
    if ws == [] then []
    else if ws[|ws| - 1].bno == n then [ws[|ws| - 1].data] else LastTo(ws[..|ws| - 1], n)
  }

  /** ws are log_writes of t: of blocks t logs, each in the end with what t leaves there. */
  ghost predicate Carries(x: Setup, t: Txn, ws: seq<LogRuns.OpWrite>) {
    && (forall k :: 0 <= k < |ws| ==> ws[k].bno in t.logged && x.g.IsHome(ws[k].bno))
    && (forall n :: n in t.logged && x.g.IsHome(n) ==> LastTo(ws, n) == [DiskLayout.ImageAt(x.sb, t.after, n)])
  }

  lemma {:induction false} ReplayAt(h: map<nat, LogDisk.Block>, ws: seq<LogRuns.OpWrite>, n: nat)
    requires forall k :: 0 <= k < |ws| ==> ws[k].bno in h
    ensures LogRuns.Replay(h, ws).Keys == h.Keys
    ensures n in h ==> LogRuns.Replay(h, ws)[n] == if LastTo(ws, n) == [] then h[n] else LastTo(ws, n)[0]
  {
    if ws != [] {
      ReplayAt(h, ws[..|ws| - 1], n);
    }
  }

  lemma {:induction false} LastToIn(ws: seq<LogRuns.OpWrite>, n: nat)
    requires forall k :: 0 <= k < |ws| ==> ws[k].bno != n
    ensures LastTo(ws, n) == []
  {
    if ws != [] {
      LastToIn(ws[..|ws| - 1], n);
    }
  }

  /** Carried out, a transaction turns the disk of the volume it found into that of the one it left. */
  lemma CarriedOut(x: Setup, t: Txn, ws: seq<LogRuns.OpWrite>)
    requires Framed(x.sb, t.before, t.after, t.logged) && Carries(x, t, ws)
    ensures LogRuns.Replay(Image(x, t.before), ws) == Image(x, t.after)
  {
    hide DiskLayout.HeldAt, DiskLayout.Layout, Framed;
    var h, r := Image(x, t.before), LogRuns.Replay(Image(x, t.before), ws);
    ReplayAt(h, ws, 0);
    forall n: nat | n in h ensures r[n] == Image(x, t.after)[n] {
      ReplayAt(h, ws, n);
      if n !in t.logged {
        LastToIn(ws, n);
        DiskLayout.FramedHeld(x.sb, t.before, t.after, t.logged, n);
      }
    }
  }

  // ---------------------------------------------------------------- runs

  /** What the buffer cache shows: the disk, and over it what is waiting to be committed. */
  ghost function Live(g: LogDisk.Geometry, s: LogRuns.State): (h: map<nat, LogDisk.Block>)
    requires |s.disk| == g.total
  {
    LogDisk.Home(g, s.disk) + s.cache
  }

  /**
   The file system's part: an operation starts to write when those before it have written all
   they will, from the volume it then sees; it goes on until it is done, and ends only then.
   */
  ghost predicate Orderly(x: Setup, s: LogRuns.State, e: LogRuns.Event) {
    match e
    case LogWrite(op, bno, data) =>
      && op in x.txns && bno in x.txns[op].logged
      && if LogRuns.WritesBy(s.group.writes, op) == [] then Starts(x, s, op)
         else s.group.writes[|s.group.writes| - 1].op == op
    case EndOp(op) => op in x.txns ==> Carries(x, x.txns[op], LogRuns.WritesBy(s.group.writes, op))
    case _ => true
  }

  ghost predicate Starts(x: Setup, s: LogRuns.State, op: nat)
    requires op in x.txns
  {
    && |s.disk| == x.g.total && Live(x.g, s) == Image(x, x.txns[op].before)
    && (s.group.writes != [] ==>
          var q := s.group.writes[|s.group.writes| - 1].op;
          q in x.txns && Carries(x, x.txns[q], LogRuns.WritesBy(s.group.writes, q)))
  }

  /** t is reached from s by events in which the file system does its part. */
  ghost predicate OrderlyRun(x: Setup, s: LogRuns.State, es: seq<LogRuns.Event>, t: LogRuns.State)
    requires x.g.Valid()
  {
    if es == [] then s == t
    else
      var last := |es| - 1;
      exists u :: OrderlyRun(x, s, es[..last], u) && LogRuns.Enabled(x.g, u, es[last]) && Orderly(x, u, es[last])
                  && t == LogRuns.Do(x.g, u, es[last])
  }

  /** The disk after ops, of which each left a volume; start if there are none. */
  ghost function EndOf(x: Setup, start: map<nat, LogDisk.Block>, ops: seq<nat>): (h: map<nat, LogDisk.Block>) {
    if ops == [] || ops[|ops| - 1] !in x.txns then start else Image(x, x.txns[ops[|ops| - 1]].after)
  }

  /** Each of ops starts from the volume its predecessor left, the first from start. */
  ghost predicate Linked(x: Setup, start: map<nat, LogDisk.Block>, ops: seq<nat>) {
    ops == [] ||
    var rest, q := ops[..|ops| - 1], ops[|ops| - 1];
    Linked(x, start, rest) && q in x.txns && Image(x, x.txns[q].before) == EndOf(x, start, rest)
  }

  lemma {:induction false} LinkedMore(x: Setup, start: map<nat, LogDisk.Block>, c: seq<nat>, p: seq<nat>)
    requires Linked(x, start, c) && Linked(x, EndOf(x, start, c), p)
    ensures Linked(x, start, c + p) && EndOf(x, start, c + p) == EndOf(x, EndOf(x, start, c), p)
  {
    hide Image;
    if p == [] {
      assert c + p == c;
    } else {
      LinkedMore(x, start, c, p[..|p| - 1]);
      assert (c + p)[..|c + p| - 1] == c + p[..|p| - 1];
    }
  }

  lemma LinkedSnoc(x: Setup, start: map<nat, LogDisk.Block>, p: seq<nat>, op: nat)
    requires Linked(x, start, p) && op in x.txns && Image(x, x.txns[op].before) == EndOf(x, start, p)
    ensures Linked(x, start, p + [op])
  {
    assert (p + [op])[..|p|] == p;
  }

  /** The writes of the current group: those of p, one after another, the last perhaps unfinished. */
  ghost predicate GroupInv(x: Setup, start: map<nat, LogDisk.Block>, s: LogRuns.State, p: seq<nat>) {
    && Linked(x, start, p) && (p == [] <==> s.group.writes == [])
    && (forall k :: 0 <= k < |s.group.writes| ==> s.group.writes[k].op in p)
    && (p != [] ==>
          var q := p[|p| - 1];
          var mine := LogRuns.WritesBy(s.group.writes, q);
          && q in x.txns && s.group.writes[|s.group.writes| - 1].op == q
          && LogRuns.Replay(start, s.group.writes) == LogRuns.Replay(Image(x, x.txns[q].before), mine)
          && (q !in s.open ==> Carries(x, x.txns[q], mine)))
  }

  /** Every write of the committed groups is by one of c. */
  ghost predicate WritersIn(gs: seq<LogRuns.Group>, c: seq<nat>) {
    forall i, k :: 0 <= i < |gs| && 0 <= k < |gs[i].writes| ==> gs[i].writes[k].op in c
  }

  /** c have been committed; p wait in the current group, unless it is committed already. */
  ghost predicate ChainInv(x: Setup, h: map<nat, LogDisk.Block>, s: LogRuns.State, c: seq<nat>, p: seq<nat>) {
    && Linked(x, h, c) && LogRuns.ReplayGroups(h, s.committed) == EndOf(x, h, c) && WritersIn(s.committed, c)
    && (LogRuns.Uncommitted(s) ==> GroupInv(x, EndOf(x, h, c), s, p))
  }

  /** Once all operations are closed, the group leads to the volume the last of them left. */
  lemma GroupDone(x: Setup, start: map<nat, LogDisk.Block>, s: LogRuns.State, p: seq<nat>)
    requires Sound(x) && GroupInv(x, start, s, p) && s.open == map[]
    ensures LogRuns.Replay(start, s.group.writes) == EndOf(x, start, p)
  {
    hide Image, Carries, Linked;
    if p != [] {
      LastOf(x, start, p);
      CarriedOut(x, x.txns[p[|p| - 1]], LogRuns.WritesBy(s.group.writes, p[|p| - 1]));
    }
  }

  /** What the buffer cache shows is the committed groups and then the current one. */
  lemma LiveIs(g: LogDisk.Geometry, h: map<nat, LogDisk.Block>, s: LogRuns.State)
    requires LogRuns.Inv(g, h, s) && s.phase.Running?
    ensures |s.disk| == g.total && Live(g, s) == LogRuns.Replay(LogRuns.ReplayGroups(h, s.committed), s.group.writes)
  {
    LogDisk.CleanRecovers(g, s.disk);
    LogRuns.ReplayMerges(LogRuns.ReplayGroups(h, s.committed), s.group.writes);
  }

  /** The volume an operation starts from is the one its predecessor left. */
  lemma StartsFrom(x: Setup, start: map<nat, LogDisk.Block>, s: LogRuns.State, op: nat, p: seq<nat>)
    requires Sound(x) && GroupInv(x, start, s, p) && op in x.txns
    requires Starts(x, s, op) && Live(x.g, s) == LogRuns.Replay(start, s.group.writes)
    ensures Image(x, x.txns[op].before) == EndOf(x, start, p) == LogRuns.Replay(start, s.group.writes)
  {
    hide Image, Carries, LogRuns.Replay, LogRuns.WritesBy, Live, Linked, EndOf;
    if p == [] {
      ReplayNone(start);
      assert EndOf(x, start, p) == start by { EndOfNone(x, start); }
    } else {
      LastOf(x, start, p);
      CarriedOut(x, x.txns[p[|p| - 1]], LogRuns.WritesBy(s.group.writes, p[|p| - 1]));
    }
  }

  lemma EndOfNone(x: Setup, start: map<nat, LogDisk.Block>)
    ensures EndOf(x, start, []) == start
  {
  }

  /** An operation starts to write. */
  lemma StartWrites(x: Setup, start: map<nat, LogDisk.Block>, s: LogRuns.State, t: LogRuns.State,
                    w: LogRuns.OpWrite, p: seq<nat>)
    requires GroupInv(x, start, s, p) && w.op in x.txns && w.op in t.open
    requires LogRuns.WritesBy(s.group.writes, w.op) == [] && t.group.writes == s.group.writes + [w]
    requires Image(x, x.txns[w.op].before) == EndOf(x, start, p) == LogRuns.Replay(start, s.group.writes)
    ensures GroupInv(x, start, t, p + [w.op])
  {
    hide Image, Carries, LogRuns.Replay, LogRuns.WritesBy, Linked, EndOf;
    var ws, h := s.group.writes, Image(x, x.txns[w.op].before);
    LogRuns.ReplaySnoc(start, ws, w);
    LogRuns.WritesSnoc(ws, w, w.op);
    LogRuns.ReplaySnoc(h, [], w);
    ReplayNone(h);
    LinkedSnoc(x, start, p, w.op);
    assert [] + [w] == [w];
    var p' := p + [w.op];
    assert p'[|p'| - 1] == w.op;
    forall k | 0 <= k < |t.group.writes| ensures t.group.writes[k].op in p' {
      assert k < |ws| ==> t.group.writes[k] == ws[k];
    }
  }

  lemma LastOf(x: Setup, start: map<nat, LogDisk.Block>, p: seq<nat>)
    requires Sound(x) && Linked(x, start, p) && p != []
    ensures p[|p| - 1] in x.txns && EndOf(x, start, p) == Image(x, x.txns[p[|p| - 1]].after)
    ensures var t := x.txns[p[|p| - 1]]; Framed(x.sb, t.before, t.after, t.logged)
  {
    hide Image, Framed;
  }

  /** The last operation to write goes on. */
  lemma GoesOn(x: Setup, start: map<nat, LogDisk.Block>, s: LogRuns.State, t: LogRuns.State,
               w: LogRuns.OpWrite, p: seq<nat>)
    requires Sound(x) && GroupInv(x, start, s, p) && w.op in t.open && s.group.writes != []
    requires s.group.writes[|s.group.writes| - 1].op == w.op && t.group.writes == s.group.writes + [w]
    ensures GroupInv(x, start, t, p)
  {
    hide Image, Carries, LogRuns.Replay, LogRuns.WritesBy, Linked, Sound, EndOf, Framed;
    LastOf(x, start, p);
    var ws := s.group.writes;
    LogRuns.ReplaySnoc(start, ws, w);
    LogRuns.WritesSnoc(ws, w, w.op);
    LogRuns.ReplaySnoc(Image(x, x.txns[w.op].before), LogRuns.WritesBy(ws, w.op), w);
  }

  lemma ReplayNone(h: map<nat, LogDisk.Block>)
    ensures LogRuns.Replay(h, []) == h
  {
  }

  lemma LogWriteStep(x: Setup, h: map<nat, LogDisk.Block>, s: LogRuns.State, e: LogRuns.Event, c: seq<nat>, p: seq<nat>)
    returns (p': seq<nat>)
    requires Sound(x) && LogRuns.Inv(x.g, h, s) && ChainInv(x, h, s, c, p) && e.LogWrite?
    requires LogRuns.Enabled(x.g, s, e) && Orderly(x, s, e) && |s.blocks| < x.g.Capacity()
    ensures ChainInv(x, h, LogRuns.Do(x.g, s, e), c, p')
  {
    hide Image, Carries, Live, Starts, GroupInv, Linked;
    hide LogRuns.Inv, LogRuns.Replay, LogRuns.ReplayGroups, LogRuns.WritesBy;
    var start := EndOf(x, h, c);
    var w, t := LogRuns.OpWrite(e.op, e.bno, e.data), LogRuns.Do(x.g, s, e);
    LiveIs(x.g, h, s);
    if LogRuns.WritesBy(s.group.writes, e.op) == [] {
      StartsFrom(x, start, s, e.op, p);
      StartWrites(x, start, s, t, w, p);
      p' := p + [e.op];
    } else {
      SomeWrites(s.group.writes, e.op);
      GoesOn(x, start, s, t, w, p);
      p' := p;
    }
  }

  lemma SomeWrites(ws: seq<LogRuns.OpWrite>, op: nat)
    requires LogRuns.WritesBy(ws, op) != []
    ensures ws != []
  {
  }

  /** What events outside a commit do to the groups and the open operations. */
  lemma QuietDo(g: LogDisk.Geometry, s: LogRuns.State, e: LogRuns.Event)
    requires g.Valid() && LogRuns.Enabled(g, s, e) && !e.DiskWrite? && !e.CommitReturns?
    requires e.LogWrite? ==> |s.blocks| >= g.Capacity()
    ensures var t := LogRuns.Do(g, s, e);
      && t.committed == s.committed && LogRuns.Uncommitted(t)
      && (if e.Crash? then t.group.writes == []
          else LogRuns.Uncommitted(s) && t.group == s.group)
      && (forall q :: q in s.open && q !in t.open ==> e.Crash? || e == LogRuns.EndOp(q))
  {
    hide LogRuns.Script, LogRuns.ScriptDefined, LogDisk.Apply;
  }

  lemma SameGroup(x: Setup, start: map<nat, LogDisk.Block>, s: LogRuns.State, t: LogRuns.State, p: seq<nat>)
    requires GroupInv(x, start, s, p) && t.group == s.group
    requires p != [] && p[|p| - 1] in s.open && p[|p| - 1] !in t.open && p[|p| - 1] in x.txns ==>
      Carries(x, x.txns[p[|p| - 1]], LogRuns.WritesBy(s.group.writes, p[|p| - 1]))
    ensures GroupInv(x, start, t, p)
  {
    hide Image, Carries, LogRuns.Replay, LogRuns.WritesBy, Linked;
  }

  lemma NoGroup(x: Setup, start: map<nat, LogDisk.Block>, t: LogRuns.State)
    requires t.group.writes == []
    ensures GroupInv(x, start, t, [])
  {
  }

  /** The other events, but for those of a commit. */
  lemma QuietStep(x: Setup, h: map<nat, LogDisk.Block>, s: LogRuns.State, e: LogRuns.Event, c: seq<nat>, p: seq<nat>)
    returns (p': seq<nat>)
    requires x.g.Valid() && ChainInv(x, h, s, c, p)
    requires LogRuns.Enabled(x.g, s, e) && Orderly(x, s, e) && !e.DiskWrite? && !e.CommitReturns?
    requires e.LogWrite? ==> |s.blocks| >= x.g.Capacity()
    ensures ChainInv(x, h, LogRuns.Do(x.g, s, e), c, p')
  {
    hide Carries, LogRuns.ReplayGroups, LogRuns.WritesBy, Starts, Linked, EndOf, GroupInv, LogRuns.Do, LogRuns.Enabled;
    QuietDo(x.g, s, e);
    var t := LogRuns.Do(x.g, s, e);
    if e.Crash? {
      p' := [];
      NoGroup(x, EndOf(x, h, c), t);
    } else {
      p' := p;
      SameGroup(x, EndOf(x, h, c), s, t, p);
    }
  }

  /** What a write of the disk does to the groups and the open operations. */
  lemma DiskDo(g: LogDisk.Geometry, h: map<nat, LogDisk.Block>, s: LogRuns.State)
    requires LogRuns.Inv(g, h, s) && LogRuns.Enabled(g, s, LogRuns.DiskWrite)
    ensures g.Valid() && s.open == map[]
    ensures var t := LogRuns.Do(g, s, LogRuns.DiskWrite);
      && t.group == s.group && t.open == s.open
      && if s.phase.Committing? && s.phase.done == |s.blocks|
         then LogRuns.Uncommitted(s) && !LogRuns.Uncommitted(t) && t.committed == s.committed + [s.group]
         else t.committed == s.committed && (LogRuns.Uncommitted(t) ==> LogRuns.Uncommitted(s))
  {
    hide LogRuns.Script, LogRuns.ScriptDefined, LogRuns.DiskInv, LogRuns.SpaceInv, LogRuns.MemoryInv, LogDisk.Apply;
  }

  /** A write of a commit; that of the header commits the group. */
  lemma DiskWriteStep(x: Setup, h: map<nat, LogDisk.Block>, s: LogRuns.State, c: seq<nat>, p: seq<nat>)
    returns (c': seq<nat>)
    requires Sound(x) && LogRuns.Inv(x.g, h, s) && ChainInv(x, h, s, c, p)
    requires LogRuns.Enabled(x.g, s, LogRuns.DiskWrite)
    ensures ChainInv(x, h, LogRuns.Do(x.g, s, LogRuns.DiskWrite), c', p)
  {
    hide Carries, LogRuns.ReplayGroups, LogRuns.WritesBy, Linked, EndOf, GroupInv, LogRuns.Replay, Sound, WritersIn;
    hide LogRuns.Do, LogRuns.Enabled, LogRuns.Inv, LogRuns.Uncommitted;
    DiskDo(x.g, h, s);
    var t := LogRuns.Do(x.g, s, LogRuns.DiskWrite);
    if s.phase.Committing? && s.phase.done == |s.blocks| {
      GroupDone(x, EndOf(x, h, c), s, p);
      LinkedOf(x, EndOf(x, h, c), s, p);
      LinkedMore(x, h, c, p);
      LogRuns.ReplayGroupsSnoc(h, s.committed, s.group);
      LogRuns.ReplayMerges(LogRuns.ReplayGroups(h, s.committed), s.group.writes);
      WritersMore(x, EndOf(x, h, c), s, c, p);
      c' := c + p;
    } else {
      c' := c;
      if LogRuns.Uncommitted(t) {
        SameGroup(x, EndOf(x, h, c), s, t, p);
      }
    }
  }

  lemma LinkedOf(x: Setup, start: map<nat, LogDisk.Block>, s: LogRuns.State, p: seq<nat>)
    requires GroupInv(x, start, s, p)
    ensures Linked(x, start, p) && (p == [] <==> s.group.writes == [])
  {
  }

  lemma WritersMore(x: Setup, start: map<nat, LogDisk.Block>, s: LogRuns.State, c: seq<nat>, p: seq<nat>)
    requires GroupInv(x, start, s, p) && WritersIn(s.committed, c)
    ensures WritersIn(s.committed + [s.group], c + p)
  {
  }

  /** What the return of a commit does: an empty group counts as committed. */
  lemma ReturnDo(g: LogDisk.Geometry, h: map<nat, LogDisk.Block>, s: LogRuns.State)
    requires LogRuns.Inv(g, h, s) && LogRuns.Enabled(g, s, LogRuns.CommitReturns)
    ensures g.Valid()
    ensures var t := LogRuns.Do(g, s, LogRuns.CommitReturns);
      && t.group.writes == []
      && (t.committed == s.committed || (t.committed == s.committed + [s.group] && s.group.writes == []))
  {
    hide LogRuns.Script, LogRuns.SpaceInv, LogRuns.QuietInv, LogDisk.Apply, LogRuns.Replay, LogRuns.ReplayGroups;
    if s.blocks == [] {
      LogRuns.GroupUpdates(g, s, s.phase.base);
      SomethingWritten(s.group.writes);
    }
  }

  /** A commit returns: its group is committed, or was empty. */
  lemma ReturnStep(x: Setup, h: map<nat, LogDisk.Block>, s: LogRuns.State, c: seq<nat>, p: seq<nat>)
    requires LogRuns.Inv(x.g, h, s) && ChainInv(x, h, s, c, p)
    requires LogRuns.Enabled(x.g, s, LogRuns.CommitReturns)
    ensures ChainInv(x, h, LogRuns.Do(x.g, s, LogRuns.CommitReturns), c, [])
  {
    hide Linked, EndOf, GroupInv, LogRuns.ReplayGroups, LogRuns.Do, LogRuns.Enabled, LogRuns.Inv, LogRuns.Replay;
    ReturnDo(x.g, h, s);
    NoGroup(x, EndOf(x, h, c), LogRuns.Do(x.g, s, LogRuns.CommitReturns));
    LogRuns.ReplayGroupsSnoc(h, s.committed, s.group);
    ReplayNone(map[]);
  }

  lemma SomethingWritten(ws: seq<LogRuns.OpWrite>)
    ensures ws != [] ==> LogRuns.Replay(map[], ws) != map[]
  {
    if ws != [] {
      assert ws[|ws| - 1].bno in LogRuns.Replay(map[], ws);
    }
  }

  lemma {:induction false} ChainRun(x: Setup, d: LogDisk.Disk, es: seq<LogRuns.Event>, s: LogRuns.State)
    returns (c: seq<nat>, p: seq<nat>)
    requires Sound(x) && LogDisk.GoodDisk(x.g, d) && d[x.g.start].w[0] == 0
    requires OrderlyRun(x, LogRuns.Boot(d), es, s)
    ensures LogRuns.Reaches(x.g, LogRuns.Boot(d), es, s) && ChainInv(x, LogDisk.Home(x.g, d), s, c, p)
  {
    hide LogRuns.Do, LogRuns.Enabled, ChainInv, Orderly, LogRuns.Inv, LogDisk.Home;
    var h := LogDisk.Home(x.g, d);
    if es == [] {
      c, p := [], [];
      ChainBoot(x, h, d);
    } else {
      var e := es[|es| - 1];
      var u :| OrderlyRun(x, LogRuns.Boot(d), es[..|es| - 1], u) && LogRuns.Enabled(x.g, u, e) && Orderly(x, u, e)
               && s == LogRuns.Do(x.g, u, e);
      c, p := ChainRun(x, d, es[..|es| - 1], u);
      assert LogRuns.Reaches(x.g, LogRuns.Boot(d), es, s);
      LogRuns.RunInv(x.g, d, es[..|es| - 1], u);
      c, p := ChainStep(x, h, u, e, c, p);
    }
  }

  lemma ChainBoot(x: Setup, h: map<nat, LogDisk.Block>, d: LogDisk.Disk)
    ensures ChainInv(x, h, LogRuns.Boot(d), [], [])
  {
  }

  lemma ChainStep(x: Setup, h: map<nat, LogDisk.Block>, s: LogRuns.State, e: LogRuns.Event, c: seq<nat>, p: seq<nat>)
    returns (c': seq<nat>, p': seq<nat>)
    requires Sound(x) && LogRuns.Inv(x.g, h, s) && ChainInv(x, h, s, c, p)
    requires LogRuns.Enabled(x.g, s, e) && Orderly(x, s, e)
    ensures ChainInv(x, h, LogRuns.Do(x.g, s, e), c', p')
  {
    hide LogRuns.Do, LogRuns.Enabled, ChainInv, Orderly, LogRuns.Inv;
    c', p' := c, p;
    if e.DiskWrite? {
      c' := DiskWriteStep(x, h, s, c, p);
    } else if e.CommitReturns? {
      ReturnStep(x, h, s, c, p);
      p' := [];
    } else if e.LogWrite? && |s.blocks| < x.g.Capacity() {
      p' := LogWriteStep(x, h, s, e, c, p);
    } else {
      p' := QuietStep(x, h, s, e, c, p);
    }
  }

  /**
   The disk as any run with crashes leaves it recovers to the volume after some whole transactions:
   each of them started from the volume the one before it left, the first from the initial volume,
   and the last left the recovered one. Among them is every operation that wrote in a group whose
   commit returned.
   */
  lemma RecoversWholeTransactions(x: Setup, v: Vol, d: LogDisk.Disk, es: seq<LogRuns.Event>, s: LogRuns.State)
    returns (c: seq<nat>)
    requires Sound(x) && LogDisk.GoodDisk(x.g, d) && d[x.g.start].w[0] == 0 && LogDisk.Home(x.g, d) == Image(x, v)
    requires OrderlyRun(x, LogRuns.Boot(d), es, s)
    ensures LogDisk.GoodDisk(x.g, s.disk) && Linked(x, Image(x, v), c)
    ensures LogDisk.Recovered(x.g, s.disk) == Image(x, if c == [] then v else x.txns[c[|c| - 1]].after)
    ensures WritersIn(s.committed, c) && forall id :: id in s.returned ==> LogRuns.Holds(s.committed, id)
  {
    hide OrderlyRun, LogRuns.Reaches, Image;
    var p;
    c, p := ChainRun(x, d, es, s);
    LogRuns.CrashSafety(x.g, d, es, s);
  }

  // ---------------------------------------------------------------- what the code does

  /**
   A transaction of filewrite changes only the blocks it logs, and logs no more than its bound. On
   a file without holes, with all inodes on disk up to date, it is the write to the file, and they
   are up to date again.
   */
  method WriteTxn(fs: FileSystem, f: File, src: seq<byte>) returns (r: Outcome, ghost t: Txn)
    requires Owned(fs.sb, fs.V()) && SizeOk(fs.V(), f.ip) && f.off < UINT && 0 < |src| <= CHUNKMAX
    modifies fs, f
    ensures r.Ret? && r.n != -1 ==>
      && t.before == old(fs.D()) && t.after == fs.D() && Framed(fs.sb, t.before, t.after, t.logged)
      && |t.logged| <= OpBound(fs.sb, HoleFree(old(fs.V()), f.ip)) && fs.ops == old(fs.ops) + [t.logged]
    ensures r.Ret? && r.n != -1 && HoleFree(old(fs.V()), f.ip) && old(fs.dinodes == fs.inodes) ==>
      fs.dinodes == fs.inodes && WroteFile(fs.sb, t.before, t.after, f.ip, src, old(f.off))
  {
    hide Owned, HoleFree, Framed, WroteFile;
    r := fs.WriteOp(f, src);
    t := Txn(old(fs.D()), fs.D(), if r.Ret? then fs.ops[|old(fs.ops)|] else {});
  }

  /** Truncating a file is such a transaction, too. */
  method TruncateTxn(fs: FileSystem, i: nat) returns (ok: bool, ghost t: Txn)
    requires Owned(fs.sb, fs.V()) && i in fs.inodes && fs.dinodes == fs.inodes
    modifies fs
    ensures ok && t.before == old(fs.D()) && t.after == fs.D() && Framed(fs.sb, t.before, t.after, t.logged)
    ensures Truncated(fs.sb, t.before, t.after, i) && fs.dinodes == fs.inodes
    ensures fs.sb.size <= BPB ==> |t.logged| <= OpBound(fs.sb, true)
  {
    hide Owned, Framed, Truncated;
    fs.BeginOp();
    ok := fs.Itrunc(i);
    t := Txn(old(fs.D()), fs.D(), fs.logged);
    assert fs.dinodes == fs.inodes by { TruncatedInodes(fs.sb, old(fs.V()), fs.V(), old(fs.dinodes), fs.dinodes, i); }
    if fs.sb.size <= BPB {
      Within(fs.logged, {fs.sb.bmapstart, IBlock(fs.sb, i)});
    }
    fs.EndOp();
  }

  lemma TruncatedInodes(sb: Super, v: Vol, w: Vol, dino: map<nat, Inode>, dino': map<nat, Inode>, i: nat)
    requires Truncated(sb, v, w, i) && dino == v.inodes && i in v.inodes
    requires i in w.inodes && dino' == dino[i := w.inodes[i]]
    ensures dino' == w.inodes
  {
    assert dino'.Keys == w.inodes.Keys;
  }

  // ---------------------------------------------------------------- room in the log

  /** The blocks an operation has written in a group. */
  ghost function Targets(ws: seq<LogRuns.OpWrite>, op: nat): (r: set<nat>) {
    set k | 0 <= k < |ws| && ws[k].op == op :: ws[k].bno
  }

  /** Operation op has added n entries, no more than the blocks it has written, all among those it logs. */
  ghost predicate SpentBy(x: Setup, ws: seq<LogRuns.OpWrite>, op: nat, n: nat) {
    if op in x.txns then n <= |Targets(ws, op)| && Targets(ws, op) <= x.txns[op].logged
    else n == 0 && Targets(ws, op) == {}
  }

  ghost predicate Spent(x: Setup, s: LogRuns.State) {
    forall op :: op in s.open ==> SpentBy(x, s.group.writes, op, s.open[op])
  }

  lemma TargetsSnoc(ws: seq<LogRuns.OpWrite>, w: LogRuns.OpWrite, op: nat)
    ensures Targets(ws + [w], op) == Targets(ws, op) + if w.op == op then {w.bno} else {}
  {
    var t := ws + [w];
    forall n ensures n in Targets(t, op) <==> n in Targets(ws, op) || (w.op == op && n == w.bno) {
      if n in Targets(ws, op) {
        var k :| 0 <= k < |ws| && ws[k].op == op && ws[k].bno == n;
        assert t[k] == ws[k];
      }
      assert t[|ws|] == w;
    }
  }

  lemma {:induction false} WrittenIsCached(ws: seq<LogRuns.OpWrite>, op: nat, n: nat)
    requires n in Targets(ws, op)
    ensures n in LogRuns.Replay(map[], ws)
  {
    var rest := ws[..|ws| - 1];
    assert ws == rest + [ws[|ws| - 1]];
    TargetsSnoc(rest, ws[|ws| - 1], op);
    if n in Targets(rest, op) {
      WrittenIsCached(rest, op, n);
    }
  }

  /** Only transactions write, and only blocks they log; what, when and among which others is left open. */
  ghost predicate Logs(x: Setup, e: LogRuns.Event) {
    e.LogWrite? ==> e.op in x.txns && e.bno in x.txns[e.op].logged
  }

  /** t is reached from s by events in which transactions write only blocks they log. */
  ghost predicate LoggingRun(x: Setup, s: LogRuns.State, es: seq<LogRuns.Event>, t: LogRuns.State)
    requires x.g.Valid()
  {
    if es == [] then s == t
    else
      var last := |es| - 1;
      exists u :: LoggingRun(x, s, es[..last], u) && LogRuns.Enabled(x.g, u, es[last]) && Logs(x, es[last])
                  && t == LogRuns.Do(x.g, u, es[last])
  }

  /** No transaction logs more than k blocks. */
  ghost predicate Modest(x: Setup, k: nat) {
    x.g.Valid() && forall op :: op in x.txns ==> |x.txns[op].logged| <= k
  }

  /** A write keeps an operation within the blocks it logs. */
  lemma SpendOne(x: Setup, h: map<nat, LogDisk.Block>, s: LogRuns.State, e: LogRuns.Event, k: nat)
    requires Modest(x, k) && LogRuns.Inv(x.g, h, s) && Spent(x, s) && e.LogWrite?
    requires LogRuns.Enabled(x.g, s, e) && Logs(x, e)
    ensures var ws := s.group.writes + [LogRuns.OpWrite(e.op, e.bno, e.data)];
      SpentBy(x, ws, e.op, if e.bno in s.blocks then s.open[e.op] else s.open[e.op] + 1)
    ensures LogRuns.WithinBudget(s, e, k)
  {
    hide LogRuns.DiskInv, LogRuns.SpaceInv, LogRuns.QuietInv, LogRuns.OwnerInv, LogRuns.OrderInv;
    hide LogRuns.Replay, Targets;
    var w := LogRuns.OpWrite(e.op, e.bno, e.data);
    var had, has := Targets(s.group.writes, e.op), Targets(s.group.writes + [w], e.op);
    assert SpentBy(x, s.group.writes, e.op, s.open[e.op]);
    TargetsSnoc(s.group.writes, w, e.op);
    AddOne(had, e.bno);
    if e.bno in had {
      WrittenIsCached(s.group.writes, e.op, e.bno);
    }
    Within(has, x.txns[e.op].logged);
  }

  lemma Within(a: set<nat>, b: set<nat>)
    requires a <= b
    ensures |a| <= |b|
  {
    if a != {} {
      var n :| n in a;
      Within(a - {n}, b - {n});
    }
  }

  lemma SpentStep(x: Setup, h: map<nat, LogDisk.Block>, s: LogRuns.State, e: LogRuns.Event, k: nat)
    requires Modest(x, k) && LogRuns.Inv(x.g, h, s) && Spent(x, s)
    requires LogRuns.Enabled(x.g, s, e) && Logs(x, e)
    ensures Spent(x, LogRuns.Do(x.g, s, e)) && LogRuns.WithinBudget(s, e, k)
  {
    hide LogRuns.DiskInv, LogRuns.SpaceInv, LogRuns.MemoryInv, LogRuns.OrderInv, SpentBy, Modest, Logs;
    hide LogRuns.Script, LogRuns.ScriptDefined, LogDisk.Apply;
    var t := LogRuns.Do(x.g, s, e);
    if e.LogWrite? {
      SpendOne(x, h, s, e, k);
      forall op | op in t.open ensures SpentBy(x, t.group.writes, op, t.open[op]) {
        if op != e.op {
          OtherSpends(x, s.group.writes, LogRuns.OpWrite(e.op, e.bno, e.data), op, s.open[op]);
        }
      }
    } else if e.BeginOp? {
      NothingSpent(x, s, e.op);
    }
  }

  lemma OtherSpends(x: Setup, ws: seq<LogRuns.OpWrite>, w: LogRuns.OpWrite, op: nat, n: nat)
    requires SpentBy(x, ws, op, n) && w.op != op
    ensures SpentBy(x, ws + [w], op, n)
  {
    TargetsSnoc(ws, w, op);
    assert Targets(ws, op) + {} == Targets(ws, op);
  }

  lemma NothingSpent(x: Setup, s: LogRuns.State, op: nat)
    requires LogRuns.OwnerInv(s) && op !in s.owner
    ensures SpentBy(x, s.group.writes, op, 0)
  {
    forall k | 0 <= k < |s.group.writes| ensures s.group.writes[k].op != op {
      assert s.group.writes[k] in s.group.writes;
    }
    assert Targets(s.group.writes, op) == {};
  }

  lemma {:induction false} SpentRun(x: Setup, d: LogDisk.Disk, es: seq<LogRuns.Event>, s: LogRuns.State, k: nat)
    requires Modest(x, k) && LogDisk.GoodDisk(x.g, d) && d[x.g.start].w[0] == 0
    requires LoggingRun(x, LogRuns.Boot(d), es, s)
    ensures LogRuns.ReachesWithin(x.g, LogRuns.Boot(d), es, s, k) && Spent(x, s)
    ensures LogRuns.Reaches(x.g, LogRuns.Boot(d), es, s)
  {
    hide LogRuns.Do, LogRuns.Enabled, Logs, LogRuns.Inv, SpentBy, LogRuns.WithinBudget;
    if es != [] {
      var e := es[|es| - 1];
      var u :| LoggingRun(x, LogRuns.Boot(d), es[..|es| - 1], u) && LogRuns.Enabled(x.g, u, e) && Logs(x, e)
               && s == LogRuns.Do(x.g, u, e);
      SpentRun(x, d, es[..|es| - 1], u, k);
      LogRuns.RunInv(x.g, d, es[..|es| - 1], u);
      SpentStep(x, LogDisk.Home(x.g, d), u, e, k);
    }
  }

  /**
   On a volume whose bitmap is one block, as mkfs makes it, transactions of filewrite never meet the
   size guard of the log, however those under way mix their block writes, with or without holes.
   */
  lemma WritesNeverTooBig(x: Setup, d: LogDisk.Disk, es: seq<LogRuns.Event>, s: LogRuns.State)
    requires Modest(x, OpBound(x.sb, false)) && x.g == LogRuns.XV6 && x.sb.size <= BPB
    requires LogDisk.GoodDisk(x.g, d) && d[x.g.start].w[0] == 0 && LoggingRun(x, LogRuns.Boot(d), es, s)
    ensures s.phase != LogRuns.Panicked
  {
    hide LogRuns.ReachesWithin, LoggingRun;
    SpentRun(x, d, es, s, OpBound(x.sb, false));
    LogRuns.GuardUnreachableIff(d, OpBound(x.sb, false));
  }
}
